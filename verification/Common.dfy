/** Value types and small facts about strings that several components share.
    Inductions are written out throughout: lemmas turn automatic induction off, whose hypotheses over
    sequence parameters get in the way of these proofs. */
module Common {

  datatype Option<+T> = None | Some(value: T)

  /** Two strings joined by a NUL character, the way span names and health keys are built. */
  function NulJoin(left: string, right: string): string
  {
    left + ['\0'] + right
  }

  /** Joining with NUL loses nothing as long as the left parts hold no NUL. */
  lemma {:induction false} NulJoinInjective(l1: string, r1: string, l2: string, r2: string)
    requires '\0' !in l1 && '\0' !in l2
    requires NulJoin(l1, r1) == NulJoin(l2, r2)
    ensures l1 == l2 && r1 == r2
  {
    var j := NulJoin(l1, r1);
    assert forall i | 0 <= i < |l1| :: j[i] == l1[i];
    assert forall i | 0 <= i < |l2| :: j[i] == l2[i];
    assert j[|l1|] == '\0' && j[|l2|] == '\0';
    assert l1 == j[..|l1|] && l2 == j[..|l2|];
    assert r1 == j[|l1| + 1..] && r2 == j[|l2| + 1..];
  }

  /** A joined text cut at its first NUL. */
  function CutAtNul(s: string): Option<(string, string)>
  {
    if s == "" then None
    else if s[0] == '\0' then Some(("", s[1..]))
    else match CutAtNul(s[1..])
      case None => None
      case Some((left, right)) => Some(([s[0]] + left, right))
  }

  /** Joining and cutting undo each other: the left part comes first, then the right. */
  lemma {:induction false} CutUndoesNulJoin(left: string, right: string)
    requires '\0' !in left
    ensures CutAtNul(NulJoin(left, right)) == Some((left, right))
  {
    if left == "" {
      assert NulJoin(left, right)[1..] == right;
    } else {
      CutUndoesNulJoin(left[1..], right);
      assert NulJoin(left, right) == [left[0]] + NulJoin(left[1..], right);
      assert left == [left[0]] + left[1..];
    }
  }

  /** A pair has a joined form of its own exactly when neither part holds a NUL. */
  lemma {:induction false} NulJoinUniqueIff(left: string, right: string)
    ensures (forall l, r :: NulJoin(l, r) == NulJoin(left, right) ==> l == left && r == right)
            <==> '\0' !in left && '\0' !in right
  {
    var j := NulJoin(left, right);
    if '\0' in left {
      var i :| 0 <= i < |left| && left[i] == '\0';
      var l, r := left[..i], left[i + 1..] + ['\0'] + right;
      assert NulJoin(l, r) == j;
      assert |l| < |left|;
    } else if '\0' in right {
      var i :| 0 <= i < |right| && right[i] == '\0';
      var l, r := left + ['\0'] + right[..i], right[i + 1..];
      assert NulJoin(l, r) == j;
      assert |l| > |left|;
    } else {
      forall l, r | NulJoin(l, r) == j
        ensures l == left && r == right
      {
        NulCount(l, r, left, right);
        NulJoinInjective(l, r, left, right);
      }
    }
  }

  lemma {:induction false} NulCount(l: string, r: string, left: string, right: string)
    requires NulJoin(l, r) == NulJoin(left, right)
    requires '\0' !in left && '\0' !in right
    ensures '\0' !in l
  {
    var j := NulJoin(left, right);
    assert forall i | 0 <= i < |j| && j[i] == '\0' :: i == |left|;
    assert j[|l|] == NulJoin(l, r)[|l|] == '\0';
    assert forall i | 0 <= i < |l| :: l[i] == NulJoin(l, r)[i];
  }

  /** Strict lexicographic order on strings, character by character: Go's `<`. */
  predicate Before(a: string, b: string)
  {
    if b == "" then false
    else if a == "" then true
    else if a[0] != b[0] then a[0] < b[0]
    else Before(a[1..], b[1..])
  }

  /** One string is before another exactly when it is a proper beginning of it, or has the smaller
      character where they first differ. */
  lemma {:induction false} BeforeIff(a: string, b: string)
    ensures Before(a, b) <==>
              a < b || exists i :: 0 <= i < |a| && i < |b| && a[..i] == b[..i] && a[i] < b[i]
  {
    if a != "" && b != "" && a[0] == b[0] {
      var x, y := a[1..], b[1..];
      BeforeIff(x, y);
      assert a == [a[0]] + x && b == [b[0]] + y;
      assert a < b <==> x < y;
      if i :| 0 <= i < |x| && i < |y| && x[..i] == y[..i] && x[i] < y[i] {
        assert a[..i + 1] == [a[0]] + x[..i] && b[..i + 1] == [b[0]] + y[..i];
        assert a[i + 1] < b[i + 1];
      }
      if i :| 0 <= i < |a| && i < |b| && a[..i] == b[..i] && a[i] < b[i] {
        assert x[..i - 1] == a[..i][1..] && y[..i - 1] == b[..i][1..];
        assert x[i - 1] < y[i - 1];
      }
    } else if a != "" && b != "" {
      assert a[..0] == b[..0];
      if i :| 0 < i < |a| && i < |b| && a[..i] == b[..i] && a[i] < b[i] {
        assert a[..i][0] == b[..i][0];
      }
    }
  }

  lemma {:induction false} BeforeTotal(a: string, b: string)
    ensures Before(a, b) || Before(b, a) || a == b
    ensures !(Before(a, b) && Before(b, a))
    ensures !Before(a, a)
  {
    if a != "" && b != "" && a[0] == b[0] {
      BeforeTotal(a[1..], b[1..]);
      assert a == [a[0]] + a[1..] && b == [b[0]] + b[1..];
    }
    if a != "" && !(b != "" && a[0] == b[0]) {
      BeforeTotal(a[1..], a[1..]);
    }
  }

  lemma {:induction false} BeforeTransitive(a: string, b: string, c: string)
    requires Before(a, b) && Before(b, c)
    ensures Before(a, c)
  {
    if a != "" && a[0] == b[0] == c[0] {
      BeforeTransitive(a[1..], b[1..], c[1..]);
    }
  }

  ghost predicate StrictlySorted(s: seq<string>)
  {
    forall i, j | 0 <= i < j < |s| :: Before(s[i], s[j])
  }

  function InsertString(s: seq<string>, x: string): (r: seq<string>)
  {
    if s == [] || Before(x, s[0]) then [x] + s else [s[0]] + InsertString(s[1..], x)
  }

  /** Go's `sort.Strings`, as an insertion sort. */
  function SortStrings(s: seq<string>): (r: seq<string>)
  {
    if s == [] then [] else InsertString(SortStrings(s[1..]), s[0])
  }

  ghost predicate NoRepeats<T>(s: seq<T>)
  {
    forall i, j | 0 <= i < j < |s| :: s[i] != s[j]
  }

  lemma {:induction false} InsertStringSorted(s: seq<string>, x: string)
    requires StrictlySorted(s) && x !in s
    ensures StrictlySorted(InsertString(s, x))
    ensures forall y :: y in InsertString(s, x) <==> y == x || y in s
  {
    if s == [] {
    } else if Before(x, s[0]) {
      forall i | 0 <= i < |s| ensures Before(x, s[i]) {
        if i > 0 { BeforeTransitive(x, s[0], s[i]); }
      }
    } else {
      var rest := InsertString(s[1..], x);
      InsertStringSorted(s[1..], x);
      BeforeTotal(x, s[0]);
      forall y | y in rest ensures Before(s[0], y) {
        if y != x { assert y in s[1..]; }
      }
    }
  }

  /** Sorting a list without repeats gives the same strings in strictly increasing order. */
  lemma {:induction false} SortStringsSorts(s: seq<string>)
    requires NoRepeats(s)
    ensures StrictlySorted(SortStrings(s))
    ensures forall y :: y in SortStrings(s) <==> y in s
  {
    if s != [] {
      SortStringsSorts(s[1..]);
      assert s[0] !in s[1..];
      InsertStringSorted(SortStrings(s[1..]), s[0]);
    }
  }

  lemma {:induction false} LongerThanAll(strings: set<string>) returns (n: nat)
    ensures forall s | s in strings :: |s| <= n
  {
    if strings == {} {
      n := 0;
    } else {
      var s :| s in strings;
      n := LongerThanAll(strings - {s});
      n := if |s| > n then |s| else n;
    }
  }

  /** There is always a string not used so far. */
  lemma {:induction false} NewString(strings: set<string>) returns (s: string)
    ensures s !in strings
  {
    var n := LongerThanAll(strings);
    s := seq(n + 1, _ => 'x');
  }
}
