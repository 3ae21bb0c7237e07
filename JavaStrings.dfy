/**
  The behaviour of the java.lang.String methods that the authorization code
  relies on: `split(" ")`, `startsWith`, `lastIndexOf`, `substring` and
  `toUpperCase` (ASCII letters only).
 */
module JavaStrings {

  /** `s.startsWith(p)`: exact, case-sensitive prefix test. */
  predicate StartsWith(s: string, p: string)
    ensures StartsWith(s, p) <==> |p| <= |s| && forall i :: 0 <= i < |p| ==> s[i] == p[i]
  {
    |p| <= |s| && s[..|p|] == p
  }

  /** `s.lastIndexOf(c)`: the position of the last `c` in `s`, or -1 when there is none. */
  function LastIndexOf(s: string, c: char): (k: int)
    ensures -1 <= k < |s|
    ensures k >= 0 ==> s[k] == c
    ensures forall j :: k < j < |s| ==> s[j] != c
  {
    if |s| == 0 then -1
    else if s[|s| - 1] == c then |s| - 1
    else LastIndexOf(s[..|s| - 1], c)
  }

  /**
    `s.substring(s.lastIndexOf(c) + 1)`: the longest suffix of `s` free of `c`
    (all of `s` when `c` does not occur).
   */
  function AfterLast(s: string, c: char): (r: string)
    ensures c !in r
    ensures |r| <= |s| && r == s[|s| - |r|..]
    ensures |r| < |s| ==> s[|s| - |r| - 1] == c
  {
    s[LastIndexOf(s, c) + 1..]
  }

  /** When `s` is a `c`-terminated prefix followed by a `c`-free rest, the rest is what follows the last `c`. */
  lemma AfterLastOfTerminatedPrefix(p: string, x: string, c: char)
    requires |p| > 0 && p[|p| - 1] == c
    requires c !in x
    ensures AfterLast(p + x, c) == x
  {
    var s := p + x;
    assert forall j :: |p| <= j < |s| ==> s[j] == x[j - |p|];
    assert s[|p| - 1] == c;
    assert LastIndexOf(s, c) == |p| - 1;
    assert s[|p|..] == x;
  }

  /**
    All pieces of `s` between single spaces, empty pieces included (what
    `split(" ", -1)` returns). `JavaSplit` below applies the rules that
    `split(" ")` adds on top of this.
   */
  function SplitOnSpace(s: string): (pieces: seq<string>)
    ensures |pieces| >= 1
    ensures forall p :: p in pieces ==> ' ' !in p
  {
    if |s| == 0 then [""]
    else
      var rest := SplitOnSpace(s[1..]);
      if s[0] == ' ' then [""] + rest
      else [[s[0]] + rest[0]] + rest[1..]
  }

  /** `String.join(" ", pieces)`. */
  function Join(pieces: seq<string>): string
    requires |pieces| >= 1
  {
    if |pieces| == 1 then pieces[0]
    else pieces[0] + " " + Join(pieces[1..])
  }

  lemma JoinExtendsHead(c: char, pieces: seq<string>)
    requires |pieces| >= 1
    ensures Join([[c] + pieces[0]] + pieces[1..]) == [c] + Join(pieces)
  {
    var ps := [[c] + pieces[0]] + pieces[1..];
    assert ps[1..] == pieces[1..];
  }

  /** Joining the pieces of a split with single spaces gives back the string. */
  lemma {:induction false} JoinSplit(s: string)
    ensures Join(SplitOnSpace(s)) == s
  {
    if |s| > 0 {
      var rest := SplitOnSpace(s[1..]);
      JoinSplit(s[1..]);
      if s[0] == ' ' {
        assert ([""] + rest)[1..] == rest;
      } else {
        JoinExtendsHead(s[0], rest);
      }
      assert s == [s[0]] + s[1..];
    }
  }

  /** A string without spaces splits into itself. */
  lemma {:induction false} SplitNoSpace(s: string)
    requires ' ' !in s
    ensures SplitOnSpace(s) == [s]
  {
    if |s| > 0 {
      assert ' ' !in s[1..] by {
        forall j | 0 <= j < |s| - 1 ensures s[1..][j] != ' ' {
          assert s[1..][j] == s[j + 1];
        }
      }
      SplitNoSpace(s[1..]);
      assert s == [s[0]] + s[1..];
    }
  }

  /** One unfolding of `SplitOnSpace` on a string given as its first character and the rest. */
  lemma SplitCons(c: char, t: string)
    ensures SplitOnSpace([c] + t)
         == if c == ' ' then [""] + SplitOnSpace(t)
            else [[c] + SplitOnSpace(t)[0]] + SplitOnSpace(t)[1..]
  {
    assert ([c] + t)[0] == c && ([c] + t)[1..] == t;
  }

  /** Splitting at one space splits both sides independently. */
  lemma {:induction false} SplitConcat(a: string, b: string)
    ensures SplitOnSpace(a + " " + b) == SplitOnSpace(a) + SplitOnSpace(b)
  {
    if |a| == 0 {
      assert a + " " + b == [' '] + b;
      SplitCons(' ', b);
    } else {
      SplitConcat(a[1..], b);
      SplitConcatStep(a[0], a[1..], b);
      assert a == [a[0]] + a[1..];
    }
  }

  /** The inductive step of `SplitConcat`: putting one character in front of the left side. */
  lemma SplitConcatStep(c: char, t: string, b: string)
    requires SplitOnSpace(t + " " + b) == SplitOnSpace(t) + SplitOnSpace(b)
    ensures SplitOnSpace([c] + t + " " + b) == SplitOnSpace([c] + t) + SplitOnSpace(b)
  {
    assert [c] + t + " " + b == [c] + (t + " " + b);
    SplitCons(c, t + " " + b);
    SplitCons(c, t);
    if c == ' ' {
      PrependAssoc([""], SplitOnSpace(t), SplitOnSpace(b));
    } else {
      MergeHeadAssoc([c], SplitOnSpace(t), SplitOnSpace(b));
    }
  }

  lemma PrependAssoc(x: seq<string>, y: seq<string>, z: seq<string>)
    ensures x + (y + z) == (x + y) + z
  {
  }

  /** Gluing `c` to the first piece commutes with appending more pieces. */
  lemma MergeHeadAssoc(c: string, rt: seq<string>, rb: seq<string>)
    requires |rt| >= 1
    ensures [c + (rt + rb)[0]] + (rt + rb)[1..] == ([c + rt[0]] + rt[1..]) + rb
  {
    assert (rt + rb)[0] == rt[0];
    assert (rt + rb)[1..] == rt[1..] + rb;
  }

  /** Splitting a join of space-free pieces gives back the pieces. */
  lemma {:induction false} SplitJoin(pieces: seq<string>)
    requires |pieces| >= 1
    requires forall p :: p in pieces ==> ' ' !in p
    ensures SplitOnSpace(Join(pieces)) == pieces
  {
    SplitNoSpace(pieces[0]);
    if |pieces| > 1 {
      assert forall p :: p in pieces[1..] ==> p in pieces;
      SplitJoin(pieces[1..]);
      SplitConcat(pieces[0], Join(pieces[1..]));
      assert pieces == [pieces[0]] + pieces[1..];
    }
  }

  /**
    Drops the empty strings at the end of `pieces`, as `split` does when
    called without a limit.
   */
  function DropTrailingEmpty(pieces: seq<string>): (r: seq<string>)
    ensures |r| <= |pieces| && r == pieces[..|r|]
    ensures |r| > 0 ==> r[|r| - 1] != ""
    ensures forall i :: |r| <= i < |pieces| ==> pieces[i] == ""
  {
    if |pieces| == 0 then []
    else if pieces[|pieces| - 1] == "" then DropTrailingEmpty(pieces[..|pieces| - 1])
    else pieces
  }

  /**
    `s.split(" ")`: when `s` has no space the result is `[s]` (even for the
    empty string); otherwise it is every piece between spaces, with the
    trailing empty pieces removed and the leading ones kept.
   */
  function JavaSplit(s: string): (tokens: seq<string>)
    ensures forall t :: t in tokens ==> t in SplitOnSpace(s)
    ensures forall t :: t in SplitOnSpace(s) ==> t in tokens || t == ""
  {
    if ' ' !in s then
      SplitNoSpace(s);
      [s]
    else
      var pieces := SplitOnSpace(s);
      var tokens := DropTrailingEmpty(pieces);
      assert forall t :: t in tokens ==> t in pieces;
      assert forall i :: 0 <= i < |pieces| ==> pieces[i] in tokens || pieces[i] == "" by {
        forall i | 0 <= i < |pieces| ensures pieces[i] in tokens || pieces[i] == "" {
          if i < |tokens| { assert tokens[i] == pieces[i]; }
        }
      }
      tokens
  }

  /** The ASCII part of `Character.toUpperCase`. */
  function UpperChar(c: char): char {
    if 'a' <= c <= 'z' then (c as int - 32) as char else c
  }

  /** `s.toUpperCase()` restricted to ASCII: lower-case letters become upper-case, all else stays. */
  function ToUpperCase(s: string): (u: string)
    ensures |u| == |s|
    ensures forall i :: 0 <= i < |s| ==> u[i] == UpperChar(s[i])
  {
    if |s| == 0 then "" else [UpperChar(s[0])] + ToUpperCase(s[1..])
  }

  /** Upper-casing leaves no lower-case ASCII letter and is idempotent. */
  lemma UpperCaseIsIdempotent(s: string)
    ensures forall i :: 0 <= i < |s| ==> !('a' <= ToUpperCase(s)[i] <= 'z')
    ensures ToUpperCase(ToUpperCase(s)) == ToUpperCase(s)
  {
  }
}
