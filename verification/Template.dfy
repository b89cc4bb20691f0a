/**
 Placeholder substitution: every leftmost-shortest occurrence of two opening braces, at least one
 character other than a line break, and two closing braces is replaced; nothing is scanned twice.
 */
module Template {
  import opened Common

  // ---------------------------------------------------------------- matches, declaratively

  /** s[lo..hi] has the form of a placeholder. */
  ghost predicate IsMatch(s: string, lo: nat, hi: nat) {
    && lo + 5 <= hi <= |s|
    && s[lo] == '{' && s[lo + 1] == '{' && s[hi - 2] == '}' && s[hi - 1] == '}'
    && forall k :: lo + 2 <= k < hi - 2 ==> s[k] != '\n'
  }

  ghost predicate ShortestMatch(s: string, lo: nat, hi: nat) {
    IsMatch(s, lo, hi) && forall h: nat :: h < hi ==> !IsMatch(s, lo, h)
  }

  ghost predicate NoMatchAt(s: string, lo: nat) {
    forall h: nat :: !IsMatch(s, lo, h)
  }

  // ---------------------------------------------------------------- the matcher

  /** The end of the first pair of closing braces from `e` on, before any line break. */
  function Close(s: string, e: nat): Option<nat>
    requires e <= |s|
    decreases |s| - e
  {
    if e + 2 > |s| then None
    else if s[e] == '}' && s[e + 1] == '}' then Some(e + 2)
    else if s[e] == '\n' then None
    else Close(s, e + 1)
  }

  /** The end of the match that starts at `lo`, if there is one. */
  function MatchEnd(s: string, lo: nat): (r: Option<nat>)
    ensures r.Some? ==> lo + 5 <= r.value <= |s|
  {
    if lo + 5 <= |s| && s[lo] == '{' && s[lo + 1] == '{' && s[lo + 2] != '\n' then
      CloseInRange(s, lo + 3);
      Close(s, lo + 3)
    else None
  }

  lemma {:induction false} CloseInRange(s: string, e: nat)
    requires e <= |s|
    ensures Close(s, e).Some? ==> e + 2 <= Close(s, e).value <= |s|
    decreases |s| - e
  {
    if e + 2 <= |s| && !(s[e] == '}' && s[e + 1] == '}') && s[e] != '\n' {
      CloseInRange(s, e + 1);
    }
  }

  /** Close finds the nearest end, and fails only when there is none. */
  lemma {:induction false} CloseIsNearest(s: string, lo: nat, e: nat)
    requires lo + 5 <= |s| && s[lo] == '{' && s[lo + 1] == '{' && lo + 3 <= e <= |s|
    requires forall k :: lo + 2 <= k < e ==> s[k] != '\n'
    requires forall h: nat :: h < e + 2 ==> !IsMatch(s, lo, h)
    ensures Close(s, e).Some? ==> ShortestMatch(s, lo, Close(s, e).value)
    ensures Close(s, e).None? ==> NoMatchAt(s, lo)
    decreases |s| - e
  {
    if e + 2 > |s| {
    } else if s[e] == '}' && s[e + 1] == '}' {
      assert IsMatch(s, lo, e + 2);
    } else {
      assert !IsMatch(s, lo, e + 2);
      if s[e] == '\n' {
        forall h: nat
          ensures !IsMatch(s, lo, h)
        {
          if e + 2 < h {
            assert s[e] == '\n';
          }
        }
      } else {
        CloseIsNearest(s, lo, e + 1);
      }
    }
  }

  /** The matcher agrees with the declarative reading at every position. */
  lemma MatcherIsShortest(s: string, lo: nat)
    ensures MatchEnd(s, lo).Some? ==> ShortestMatch(s, lo, MatchEnd(s, lo).value)
    ensures MatchEnd(s, lo).None? ==> NoMatchAt(s, lo)
  {
    if lo + 5 <= |s| && s[lo] == '{' && s[lo + 1] == '{' {
      if s[lo + 2] == '\n' {
        forall h: nat
          ensures !IsMatch(s, lo, h)
        {
          if lo + 5 <= h <= |s| {
            assert s[lo + 2] == '\n';
          }
        }
      } else {
        CloseIsNearest(s, lo, lo + 3);
      }
    }
  }

  // ---------------------------------------------------------------- substitution

  function Cat(a: Option<string>, b: Option<string>): Option<string> {
    if a.Some? && b.Some? then Some(a.value + b.value) else None
  }

  function Inner(s: string, lo: nat, hi: nat): string
    requires lo + 5 <= hi <= |s|
  {
    s[lo + 2..hi - 2]
  }

  /** re.sub from position p on; `f` replaces the text between the braces, and None means it raised. */
  function Sub(s: string, p: nat, f: string -> Option<string>): Option<string>
    requires p <= |s|
    decreases |s| - p
  {
    if p == |s| then Some("")
    else
      var end := MatchEnd(s, p);
      if end.Some? then Cat(f(Inner(s, p, end.value)), Sub(s, end.value, f))
      else Cat(Some([s[p]]), Sub(s, p + 1, f))
  }

  datatype Segment = Literal(lo: nat, hi: nat) | Placeholder(lo: nat, hi: nat)

  /**
   The segments tile s from p to its end; each placeholder is a shortest match, and no match, long
   or short, starts inside a literal.
   */
  ghost predicate Tiling(s: string, segs: seq<Segment>, p: nat) {
    if segs == [] then p == |s|
    else
      var g := segs[0];
      && g.lo == p && p < g.hi <= |s|
      && (match g
          case Literal(lo, hi) => forall i :: lo <= i < hi ==> NoMatchAt(s, i)
          case Placeholder(lo, hi) => ShortestMatch(s, lo, hi))
      && Tiling(s, segs[1..], g.hi)
  }

  function Text(segs: seq<Segment>, s: string): string {
    if segs == [] then ""
    else (if segs[0].lo <= segs[0].hi <= |s| then s[segs[0].lo..segs[0].hi] else "") + Text(segs[1..], s)
  }

  /** Literals as they are, and for each placeholder what `f` makes of the text between its braces. */
  function Render(segs: seq<Segment>, s: string, f: string -> Option<string>): Option<string> {
    if segs == [] then Some("")
    else
      var g := segs[0];
      Cat(
        match g
        case Literal(lo, hi) => if lo <= hi <= |s| then Some(s[lo..hi]) else None
        case Placeholder(lo, hi) => if lo + 5 <= hi <= |s| then f(s[lo + 2..hi - 2]) else None,
        Render(segs[1..], s, f))
  }

  /** Every string has such a tiling. */
  lemma {:induction false} TilingExists(s: string, p: nat) returns (segs: seq<Segment>)
    requires p <= |s|
    ensures Tiling(s, segs, p)
    decreases |s| - p
  {
    if p == |s| {
      segs := [];
    } else {
      MatcherIsShortest(s, p);
      var end := MatchEnd(s, p);
      var g := if end.Some? then Placeholder(p, end.value) else Literal(p, p + 1);
      var rest := TilingExists(s, g.hi);
      segs := [g] + rest;
      assert segs[1..] == rest;
    }
  }

  /** The segments of a tiling, put together, are the source text. */
  lemma {:induction false} TilingIsSource(s: string, segs: seq<Segment>, p: nat)
    requires p <= |s| && Tiling(s, segs, p)
    ensures Text(segs, s) == s[p..]
    decreases |segs|
  {
    if segs != [] {
      TilingIsSource(s, segs[1..], segs[0].hi);
      assert s[p..] == s[p..segs[0].hi] + s[segs[0].hi..];
    }
  }

  lemma {:induction false} SubOverLiteral(s: string, p: nat, hi: nat, f: string -> Option<string>)
    requires p <= hi <= |s| && forall i :: p <= i < hi ==> NoMatchAt(s, i)
    ensures Sub(s, p, f) == Cat(Some(s[p..hi]), Sub(s, hi, f))
    decreases hi - p
  {
    if p == hi {
      assert s[p..hi] == "";
      assert Sub(s, hi, f).Some? ==> "" + Sub(s, hi, f).value == Sub(s, hi, f).value;
    } else {
      MatcherIsShortest(s, p);
      assert NoMatchAt(s, p);
      assert MatchEnd(s, p).None?;
      SubOverLiteral(s, p + 1, hi, f);
      assert Sub(s, p, f) == Cat(Some([s[p]]), Sub(s, p + 1, f));
      assert s[p..hi] == [s[p]] + s[p + 1..hi];
      if Sub(s, hi, f).Some? {
        var t := Sub(s, hi, f).value;
        assert [s[p]] + (s[p + 1..hi] + t) == ([s[p]] + s[p + 1..hi]) + t;
      }
    }
  }

  /**
   Substitution is the rendering of any such tiling: it replaces exactly the leftmost-shortest
   placeholders, keeps everything else, and never looks at substituted text again.
   */
  lemma {:induction false} SubIsRender(s: string, segs: seq<Segment>, p: nat, f: string -> Option<string>)
    requires p <= |s| && Tiling(s, segs, p)
    ensures Sub(s, p, f) == Render(segs, s, f)
    decreases |segs|
  {
    if segs != [] {
      var g := segs[0];
      SubIsRender(s, segs[1..], g.hi, f);
      match g {
        case Literal(lo, hi) => SubOverLiteral(s, lo, hi, f);
        case Placeholder(lo, hi) =>
          MatcherIsShortest(s, lo);
          assert IsMatch(s, lo, hi);
          assert MatchEnd(s, lo).value == hi;
      }
    }
  }

  /** Without a placeholder anywhere, the text stays as it is. */
  lemma MatchFreeUnchanged(s: string, f: string -> Option<string>)
    requires forall lo: nat :: NoMatchAt(s, lo)
    ensures Sub(s, 0, f) == Some(s)
  {
    SubOverLiteral(s, 0, |s|, f);
    assert s[0..|s|] == s && s + "" == s;
  }
}
