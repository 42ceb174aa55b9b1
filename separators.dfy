/**
 * The leftover-separator cleanup that ends `_replace_junk`: two anchored
 * patterns, each applied once, that peel a `-`, `_` or `|` off the start
 * and then off the end of the trimmed title. Each matcher follows the
 * backtracking order of its regular expression.
 */
module Separators {
  import opened Wrappers
  import opened Text

  predicate IsSeparator(c: char) {
    c == '-' || c == '_' || c == '|'
  }

  /** The end of the greedy `\s*` from p. */
  function SpaceEnd(t: string, p: nat): (r: nat)
    requires p <= |t|
    ensures p <= r <= |t| && (r == |t| || !IsSpace(t[r]))
    ensures forall m :: p <= m < r ==> IsSpace(t[m])
    decreases |t| - p
  {
    if p < |t| && IsSpace(t[p]) then SpaceEnd(t, p + 1) else p
  }

  /** The end of the greedy `.*` from p: the first line break, or the end. */
  function LineEnd(t: string, p: nat): (r: nat)
    requires p <= |t|
    ensures p <= r <= |t| && (r == |t| || t[r] == '\n')
    ensures forall m :: p <= m < r ==> t[m] != '\n'
    decreases |t| - p
  {
    if p < |t| && t[p] != '\n' then LineEnd(t, p + 1) else p
  }

  /** `$` without MULTILINE: at the end, or just before a final line break. */
  predicate AtEnd(t: string, x: nat)
    ensures AtEnd(t, x) <==> x <= |t| && (t[x..] == [] || t[x..] == "\n")
  {
    x == |t| || (x + 1 == |t| && t[x] == '\n')
  }

  /** The two entries of `EXTRA_STRIP_PATTERNS`. */
  datatype SeparatorPattern =
    | LeadingSeparator   // ^\s*[-_\|]\s*(?P<title>.+)$
    | TrailingSeparator  // ^(?P<title>.+)\s*[-_\|]\s*$

  /** `EXTRA_STRIP_PATTERNS`, in order. */
  const ExtraStripPatterns: seq<SeparatorPattern> := [LeadingSeparator, TrailingSeparator]

  /** `.+$` with `.+` starting at b and greedily ending at c: it gives back characters until `$` holds. */
  function DotsToEnd(t: string, b: nat, c: nat): (r: Option<nat>)
    requires b <= c <= |t|
    ensures r.Some? ==> b < r.value <= c && AtEnd(t, r.value)
    decreases c
  {
    if c <= b then None
    else if AtEnd(t, c) then Some(c)
    else DotsToEnd(t, b, c - 1)
  }

  /** The second `\s*` of the leading pattern ends at b and gives back down to lo; the title follows it. */
  function LeadingTitleFrom(t: string, lo: nat, b: nat): (r: Option<string>)
    requires lo <= b <= |t|
    ensures r.Some? ==> |r.value| + lo <= |t|
    decreases b - lo
  {
    match DotsToEnd(t, b, LineEnd(t, b))
    case Some(c) => Some(t[b..c])
    case None => if lo < b then LeadingTitleFrom(t, lo, b - 1) else None
  }

  /** The first `\s*` of the leading pattern ends at a and gives back down to 0; a separator must follow it. */
  function LeadingFrom(t: string, a: nat): (r: Option<string>)
    requires a <= |t|
    ensures r.Some? ==> |r.value| < |t|
    decreases a
  {
    var here := if a < |t| && IsSeparator(t[a]) then LeadingTitleFrom(t, a + 1, SpaceEnd(t, a + 1)) else None;
    if here.Some? then here
    else if a > 0 then LeadingFrom(t, a - 1)
    else None
  }

  /** `^\s*[-_\|]\s*(?P<title>.+)$` matched at the start of t: its `title` group. */
  function LeadingSeparatorMatch(t: string): (r: Option<string>)
    ensures r.Some? ==> |r.value| < |t|
  {
    LeadingFrom(t, SpaceEnd(t, 0))
  }

  /** `\s*$` with `\s*` starting at lo and greedily ending at f: it gives back until `$` holds. */
  predicate SpacesToEnd(t: string, lo: nat, f: nat)
    requires lo <= f <= |t|
    ensures SpacesToEnd(t, lo, f) <==> exists x :: lo <= x <= f && AtEnd(t, x)
    decreases f - lo
  {
    AtEnd(t, f) || (lo < f && SpacesToEnd(t, lo, f - 1))
  }

  /** `\s*[-_\|]\s*$` with the first `\s*` starting at d and greedily ending at e: it gives back down to d. */
  predicate SeparatorToEnd(t: string, d: nat, e: nat)
    requires d <= e <= |t|
    ensures SeparatorToEnd(t, d, e) <==>
      exists x :: d <= x <= e && x < |t| && IsSeparator(t[x]) && SpacesToEnd(t, x + 1, SpaceEnd(t, x + 1))
    decreases e - d
  {
    (e < |t| && IsSeparator(t[e]) && SpacesToEnd(t, e + 1, SpaceEnd(t, e + 1))) ||
    (d < e && SeparatorToEnd(t, d, e - 1))
  }

  /** The `title` group `.+` of the trailing pattern is t[..d]; it gives back down to one character. */
  function TrailingFrom(t: string, d: nat): (r: Option<string>)
    requires d <= |t|
    ensures r.Some? ==> 0 < |r.value| < |t| && r.value == t[..|r.value|]
    decreases d
  {
    if d == 0 then None
    else if SeparatorToEnd(t, d, SpaceEnd(t, d)) then Some(t[..d])
    else TrailingFrom(t, d - 1)
  }

  /** `^(?P<title>.+)\s*[-_\|]\s*$` matched at the start of t: its `title` group. */
  function TrailingSeparatorMatch(t: string): (r: Option<string>)
    ensures r.Some? ==> 0 < |r.value| < |t| && r.value == t[..|r.value|]
  {
    TrailingFrom(t, LineEnd(t, 0))
  }

  /** `pattern.match(t)` followed by `.group("title")`. */
  function SeparatorMatch(p: SeparatorPattern, t: string): (r: Option<string>)
    ensures r.Some? ==> |r.value| < |t|
  {
    match p
    case LeadingSeparator => LeadingSeparatorMatch(t)
    case TrailingSeparator => TrailingSeparatorMatch(t)
  }

  /** One step of the second loop of `_replace_junk`. */
  function ApplySeparator(t: string, p: SeparatorPattern): (r: string)
    ensures |r| <= |t|
  {
    match SeparatorMatch(p, t)
    case Some(title) => title
    case None => t
  }

  /** The patterns applied in order, each once. */
  function ApplySeparators(t: string, ps: seq<SeparatorPattern>): (r: string)
    ensures |r| <= |t|
    decreases |ps|
  {
    if ps == [] then t else ApplySeparators(ApplySeparator(t, ps[0]), ps[1..])
  }

  /** The whole second loop of `_replace_junk`. */
  function StripSeparators(t: string): (r: string)
    ensures |r| <= |t|
  {
    ApplySeparators(t, ExtraStripPatterns)
  }

  /** Reference: drop one leading separator and the whitespace after it, when something follows. */
  function PeelLeading(t: string): string {
    if |t| >= 2 && IsSeparator(t[0]) then t[SpaceEnd(t, 1)..] else t
  }

  /** Reference: drop one trailing separator, keeping the whitespace before it. */
  function PeelTrailing(t: string): string {
    if |t| >= 2 && IsSeparator(t[|t| - 1]) then t[..|t| - 1] else t
  }

  /**
   * On a trimmed title the leading pattern removes one separator and the
   * whitespace after it, provided a character is left; a title without a
   * leading separator does not match.
   */
  lemma {:induction false} LeadingSeparatorOnStripped(t: string)
    requires Stripped(t)
    ensures (|t| < 2 || !IsSeparator(t[0])) ==> LeadingSeparatorMatch(t).None?
    ensures NoNewline(t) && |t| >= 2 && IsSeparator(t[0]) ==> LeadingSeparatorMatch(t) == Some(t[SpaceEnd(t, 1)..])
  {
    if t != [] {
      assert SpaceEnd(t, 0) == 0;
      if IsSeparator(t[0]) {
        var b := SpaceEnd(t, 1);
        if |t| == 1 {
          assert LeadingTitleFrom(t, 1, b).None?;
        } else {
          assert b < |t|;
          if NoNewline(t) {
            assert LineEnd(t, b) == |t|;
            assert DotsToEnd(t, b, LineEnd(t, b)) == Some(|t|);
            assert t[b..|t|] == t[b..];
            assert LeadingTitleFrom(t, 1, b) == Some(t[b..]);
          }
        }
      }
    }
  }

  /** `\s*$` from lo can only succeed at the very end of a trimmed title. */
  lemma {:induction false} SpacesToEndOnStripped(t: string, lo: nat, f: nat)
    requires Stripped(t) && t != []
    requires lo <= f <= |t| && forall m :: lo <= m < f ==> IsSpace(t[m])
    ensures SpacesToEnd(t, lo, f) ==> lo == |t|
    decreases f - lo
  {
    if lo < f {
      SpacesToEndOnStripped(t, lo, f - 1);
      assert IsSpace(t[f - 1]);
    }
  }

  /** On a trimmed title the separator can only be its last character. */
  lemma {:induction false} SeparatorToEndOnStripped(t: string, d: nat, e: nat)
    requires Stripped(t) && t != []
    requires d <= e <= |t|
    ensures SeparatorToEnd(t, d, e) ==> d <= |t| - 1 <= e && IsSeparator(t[|t| - 1])
    decreases e - d
  {
    if e < |t| {
      SpacesToEndOnStripped(t, e + 1, SpaceEnd(t, e + 1));
    }
    if d < e {
      SeparatorToEndOnStripped(t, d, e - 1);
    }
  }

  /** No trailing separator means no match, on a trimmed title. */
  lemma {:induction false} TrailingFromNone(t: string, d: nat)
    requires Stripped(t) && t != [] && d <= |t|
    requires |t| < 2 || !IsSeparator(t[|t| - 1])
    ensures TrailingFrom(t, d).None?
    decreases d
  {
    if d > 0 {
      SeparatorToEndOnStripped(t, d, SpaceEnd(t, d));
      TrailingFromNone(t, d - 1);
    }
  }

  /**
   * On a trimmed title the trailing pattern removes exactly one final
   * separator, provided a character is left, and keeps the whitespace
   * before it; a title without a final separator does not match.
   */
  lemma {:induction false} TrailingSeparatorOnStripped(t: string)
    requires Stripped(t)
    ensures (|t| < 2 || !IsSeparator(t[|t| - 1])) ==> TrailingSeparatorMatch(t).None?
    ensures NoNewline(t) && |t| >= 2 && IsSeparator(t[|t| - 1]) ==> TrailingSeparatorMatch(t) == Some(t[..|t| - 1])
  {
    if t != [] {
      if |t| < 2 || !IsSeparator(t[|t| - 1]) {
        TrailingFromNone(t, LineEnd(t, 0));
      } else if NoNewline(t) {
        assert LineEnd(t, 0) == |t|;
        SeparatorToEndOnStripped(t, |t|, SpaceEnd(t, |t|));
        assert SpaceEnd(t, |t| - 1) == |t| - 1;
        assert SpacesToEnd(t, |t|, SpaceEnd(t, |t|));
        assert SeparatorToEnd(t, |t| - 1, |t| - 1);
        assert TrailingFrom(t, |t| - 1) == Some(t[..|t| - 1]);
        assert TrailingFrom(t, |t|) == TrailingFrom(t, |t| - 1);
      }
    }
  }

  /**
   * The cleanup on a trimmed, single-line title peels at most one layer at
   * each end: first a leading separator, then a trailing one.
   */
  lemma StripSeparatorsOnStripped(t: string)
    requires Stripped(t) && NoNewline(t)
    ensures StripSeparators(t) == PeelTrailing(PeelLeading(t))
  {
    LeadingSeparatorOnStripped(t);
    var u := PeelLeading(t);
    assert ApplySeparator(t, LeadingSeparator) == u;
    assert Stripped(u) && NoNewline(u) by {
      if u != t {
        var b := SpaceEnd(t, 1);
        assert u == t[b..] && b < |t|;
        assert u[|u| - 1] == t[|t| - 1];
      }
    }
    TrailingSeparatorOnStripped(u);
    assert ApplySeparator(u, TrailingSeparator) == PeelTrailing(u);
    assert ExtraStripPatterns[1..] == [TrailingSeparator];
  }

  /** A trimmed title with no separator at either end goes through the cleanup unchanged. */
  lemma StripSeparatorsNoSeparator(t: string)
    requires Stripped(t)
    requires t == [] || (!IsSeparator(t[0]) && !IsSeparator(t[|t| - 1]))
    ensures StripSeparators(t) == t
  {
    LeadingSeparatorOnStripped(t);
    TrailingSeparatorOnStripped(t);
    assert ExtraStripPatterns[1..] == [TrailingSeparator];
  }
}
