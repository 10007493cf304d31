/** Line labels and their alphabetical order. */
module Labels {
  import opened Sequences

  datatype Label = Label(text: string)

  /** Alphabetical order of strings. */
  predicate Before(a: string, b: string) {
    a == [] || (b != [] && (a[0] < b[0] || (a[0] == b[0] && Before(a[1..], b[1..]))))
  }

  predicate Le(a: Label, b: Label) {
    Before(a.text, b.text)
  }

  /** At position k the strings differ for the first time, and a has the smaller character. */
  predicate SmallerAt(a: string, b: string, k: nat) {
    k < |a| && k < |b| && a[..k] == b[..k] && a[k] < b[k]
  }

  /** A string comes before those it begins, and before those it is smaller than where they first differ. */
  lemma {:induction false} BeforeMeans(a: string, b: string)
    ensures Before(a, b) <==> a <= b || exists k: nat :: SmallerAt(a, b, k)
  {
    if a != [] && b != [] && a[0] == b[0] {
      BeforeMeans(a[1..], b[1..]);
      assert a == [a[0]] + a[1..] && b == [b[0]] + b[1..];
      if k: nat :| SmallerAt(a[1..], b[1..], k) {
        assert a[..k + 1] == [a[0]] + a[1..][..k] && b[..k + 1] == [b[0]] + b[1..][..k];
        assert SmallerAt(a, b, k + 1);
      }
      if k: nat :| SmallerAt(a, b, k) {
        assert a[1..][..k - 1] == a[..k][1..] && b[1..][..k - 1] == b[..k][1..];
        assert SmallerAt(a[1..], b[1..], k - 1);
      }
    } else if a != [] && b != [] && a[0] < b[0] {
      assert SmallerAt(a, b, 0);
    }
  }

  lemma {:induction false} BeforeTotal(a: string, b: string)
    ensures Before(a, b) || Before(b, a)
  {
    if a != [] && b != [] && a[0] == b[0] {
      BeforeTotal(a[1..], b[1..]);
    }
  }

  lemma {:induction false} BeforeAntisymmetric(a: string, b: string)
    requires Before(a, b) && Before(b, a)
    ensures a == b
  {
    if a != [] && b != [] {
      BeforeAntisymmetric(a[1..], b[1..]);
      assert a == [a[0]] + a[1..] && b == [b[0]] + b[1..];
    }
  }

  lemma {:induction false} BeforeTransitive(a: string, b: string, c: string)
    requires Before(a, b) && Before(b, c)
    ensures Before(a, c)
  {
    if a != [] && b != [] && c != [] && a[0] == b[0] == c[0] {
      BeforeTransitive(a[1..], b[1..], c[1..]);
    }
  }

  function InsertLabel(x: Label, s: seq<Label>): seq<Label> {
    if s == [] || Le(x, s[0]) then [x] + s else [s[0]] + InsertLabel(x, s[1..])
  }

  /** The labels in alphabetical order. */
  function SortLabels(s: seq<Label>): seq<Label> {
    if s == [] then [] else InsertLabel(s[0], SortLabels(s[1..]))
  }

  ghost predicate Alphabetical(s: seq<Label>) {
    forall i, j | 0 <= i < j < |s| :: Le(s[i], s[j])
  }

  lemma {:induction false} InsertKeeps(x: Label, s: seq<Label>)
    requires Alphabetical(s)
    ensures multiset(InsertLabel(x, s)) == multiset{x} + multiset(s)
    ensures Alphabetical(InsertLabel(x, s))
  {
    if s == [] {
    } else if Le(x, s[0]) {
      forall j | 0 <= j < |s|
        ensures Le(x, s[j])
      {
        if j > 0 {
          BeforeTransitive(x.text, s[0].text, s[j].text);
        }
      }
    } else {
      var rest := InsertLabel(x, s[1..]);
      InsertKeeps(x, s[1..]);
      BeforeTotal(x.text, s[0].text);
      assert s == [s[0]] + s[1..];
      forall j | 0 <= j < |rest|
        ensures Le(s[0], rest[j])
      {
        assert rest[j] in multiset(rest);
        if rest[j] != x {
          assert rest[j] in s[1..];
        }
      }
    }
  }

  lemma {:induction false} SortKeeps(s: seq<Label>)
    ensures multiset(SortLabels(s)) == multiset(s)
    ensures Alphabetical(SortLabels(s))
  {
    if s != [] {
      SortKeeps(s[1..]);
      InsertKeeps(s[0], SortLabels(s[1..]));
      assert s == [s[0]] + s[1..];
    }
  }

  lemma SortKeepsNoDup(s: seq<Label>)
    requires NoDup(s)
    ensures NoDup(SortLabels(s)) && |SortLabels(s)| == |s|
    ensures forall x :: x in SortLabels(s) <==> x in s
  {
    SortKeeps(s);
    NoDupPermutation(s, SortLabels(s));
    assert |multiset(SortLabels(s))| == |multiset(s)|;
    forall x
      ensures x in SortLabels(s) <==> x in s
    {
      assert x in multiset(SortLabels(s)) <==> x in multiset(s);
    }
  }

  /** A set of labels has one alphabetical order. */
  lemma {:induction false} AlphabeticalIsUnique(a: seq<Label>, b: seq<Label>)
    requires NoDup(a) && NoDup(b) && Alphabetical(a) && Alphabetical(b)
    requires forall x :: x in a <==> x in b
    ensures a == b
  {
    EmptyTogether(a, b);
    if a != [] {
      assert a[0] in b;
      assert b[0] in a;
      FirstIsLeast(a, b[0]);
      FirstIsLeast(b, a[0]);
      BeforeAntisymmetric(a[0].text, b[0].text);
      assert a[0] == b[0];
      assert a == [a[0]] + a[1..] && b == [b[0]] + b[1..];
      RestOf(a);
      RestOf(b);
      AlphabeticalIsUnique(a[1..], b[1..]);
    }
  }

  lemma EmptyTogether(a: seq<Label>, b: seq<Label>)
    requires forall x :: x in a <==> x in b
    ensures a == [] <==> b == []
  {
    if a != [] {
      assert a[0] in b;
    }
    if b != [] {
      assert b[0] in a;
    }
  }

  lemma FirstIsLeast(s: seq<Label>, x: Label)
    requires Alphabetical(s) && x in s
    ensures Le(s[0], x)
  {
    var i :| 0 <= i < |s| && s[i] == x;
    BeforeTotal(s[0].text, s[0].text);
  }

  lemma RestOf(s: seq<Label>)
    requires NoDup(s) && s != []
    ensures NoDup(s[1..])
    ensures forall x :: x in s[1..] <==> x in s && x != s[0]
  {
    forall x | x in s && x != s[0]
      ensures x in s[1..]
    {
      var i :| 0 <= i < |s| && s[i] == x;
      assert s[1..][i - 1] == x;
    }
  }
}
