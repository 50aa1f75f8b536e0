/** How the CLI generator puts the user's module path into skeleton files
    (cli/generator/scaffold.go). */
module Scaffold {

  const SKELETON_MODULE := "github.com/abdullahPrasetio/wapgo"
  const SENTINEL := "\0skeleton-module\0"
  const BUILD_GUARD := "//go:build ignore\n"

  predicate HasPrefix(s: string, p: string) {
    |p| <= |s| && s[..|p|] == p
  }

  /** strings.ReplaceAll for a non-empty `from`: leftmost occurrences first, never overlapping. */
  function ReplaceAll(s: string, from: string, to: string): string
    requires from != ""
  {
    if s == "" then ""
    else if HasPrefix(s, from) then to + ReplaceAll(s[|from|..], from, to)
    else [s[0]] + ReplaceAll(s[1..], from, to)
  }

  function ExpandModule(content: string, mod: string): string {
    ReplaceAll(content, SENTINEL, mod)
  }

  /** The first phase: skeleton paths become sentinels. */
  function Protect(raw: string): string {
    ReplaceAll(raw, SKELETON_MODULE, SENTINEL)
  }

  function StripBuildIgnore(content: string): string {
    if !HasPrefix(content, BUILD_GUARD) then content
    else
      var rest := content[|BUILD_GUARD|..];
      if HasPrefix(rest, "\n") then rest[1..] else rest
  }

  /** What Scaffold writes for a plain file: protect the skeleton path, then expand. */
  function ScaffoldPlain(raw: string, mod: string): string {
    StripBuildIgnore(ExpandModule(Protect(raw), mod))
  }

  /** What AddFeatureFiles writes for any file: one replacement. */
  function AddFeature(raw: string, mod: string): string {
    StripBuildIgnore(ReplaceAll(raw, SKELETON_MODULE, mod))
  }

  // ----- when the two phases are one pass -----

  /** The sentinel between its NULs. */
  const LABEL := "skeleton-module"

  /** Protecting would make `s` start with a sentinel that stands for no skeleton path: `s`
      starts with one already, or with one whose closing NUL the next sentinel lends it. */
  predicate FakeHere(s: string) {
    HasPrefix(s, SENTINEL) || HasPrefix(s, "\0" + LABEL + SKELETON_MODULE)
  }

  predicate HasFake(s: string) {
    exists i :: 0 <= i <= |s| && FakeHere(s[i..])
  }

  lemma ReplaceHead(from: string, rest: string, to: string)
    requires from != ""
    ensures ReplaceAll(from + rest, from, to) == to + ReplaceAll(rest, from, to)
  {
    assert (from + rest)[|from|..] == rest;
  }

  /** The skeleton path does not start at `i`, whatever comes after `w`. */
  predicate NoStart(w: string, i: nat) {
    i < |w| && (w[i] != 'g' || (i + 1 < |w| && w[i + 1] != 'i'))
  }

  /** Text in which no skeleton path can start is copied as it is. */
  lemma {:induction false} CopiedUpTo(w: string, rest: string, to: string)
    requires forall i: nat :: i < |w| ==> NoStart(w, i)
    ensures ReplaceAll(w + rest, SKELETON_MODULE, to) == w + ReplaceAll(rest, SKELETON_MODULE, to)
  {
    if w == "" {
      assert w + rest == rest;
    } else {
      assert (w + rest)[1..] == w[1..] + rest;
      assert NoStart(w, 0);
      assert (w + rest)[0] != SKELETON_MODULE[0] || (w + rest)[1] != SKELETON_MODULE[1];
      assert !HasPrefix(w + rest, SKELETON_MODULE);
      var v := w[1..];
      forall i: nat | i < |v| ensures NoStart(v, i) {
        assert NoStart(w, i + 1);
      }
      CopiedUpTo(v, rest, to);
      assert [w[0]] + (w[1..] + ReplaceAll(rest, SKELETON_MODULE, to)) == w + ReplaceAll(rest, SKELETON_MODULE, to);
    }
  }

  /** A NUL-free prefix of a protected text was there before. */
  lemma {:induction false} PrefixWasThere(s: string, w: string)
    requires forall i :: 0 <= i < |w| ==> w[i] != '\0'
    requires HasPrefix(Protect(s), w)
    ensures HasPrefix(s, w)
  {
    if w != "" {
      assert Protect(s)[0] == w[0];
      if s != "" && !HasPrefix(s, SKELETON_MODULE) {
        assert Protect(s)[1..] == Protect(s[1..]);
        assert HasPrefix(Protect(s[1..]), w[1..]);
        PrefixWasThere(s[1..], w[1..]);
        assert s[..|w|] == [s[0]] + s[1..][..|w| - 1];
      }
    }
  }

  lemma FirstOfProtected(s: string)
    ensures HasPrefix(Protect(s), "\0") <==> HasPrefix(s, "\0") || HasPrefix(s, SKELETON_MODULE)
  {
    if s != "" && HasPrefix(s, SKELETON_MODULE) {
      assert Protect(s)[0] == SENTINEL[0];
    }
  }

  lemma Cut(s: string, a: string, b: string)
    ensures HasPrefix(s, a + b) <==> HasPrefix(s, a) && HasPrefix(s[|a|..], b)
  {
    if HasPrefix(s, a + b) {
      assert s[..|a|] == (a + b)[..|a|];
      assert s[|a|..][..|b|] == (a + b)[|a|..];
    }
    if HasPrefix(s, a) && HasPrefix(s[|a|..], b) {
      assert s[..|a + b|] == s[..|a|] + s[|a|..][..|b|];
    }
  }

  lemma LabelFacts()
    ensures SENTINEL == "\0" + LABEL + "\0"
    ensures forall i :: 0 <= i < |LABEL| ==> LABEL[i] != 'g' && LABEL[i] != '\0'
    ensures forall i :: 0 <= i < |SKELETON_MODULE| ==> SKELETON_MODULE[i] != '\0'
  {
  }

  /** Away from a skeleton path, a sentinel starts in the protected text exactly at the fakes. */
  lemma SentinelIsFake(s: string)
    requires s != "" && !HasPrefix(s, SKELETON_MODULE)
    ensures HasPrefix(Protect(s), SENTINEL) <==> FakeHere(s)
  {
    LabelFacts();
    var head, rest := "\0" + LABEL, s[1..];
    Cut(Protect(s), head, "\0");
    Cut(s, head, "\0");
    Cut(s, head, SKELETON_MODULE);
    if HasPrefix(s, head) {
      var after := s[|head|..];
      assert s == head + after;
      assert forall i :: 0 <= i < |head| ==> head[i] != 'g';
      CopiedUpTo(head, after, SENTINEL);
      assert Protect(s)[|head|..] == Protect(after);
      FirstOfProtected(after);
    } else if HasPrefix(Protect(s), head) {
      Cut(Protect(s), "\0", LABEL);
      assert Protect(s)[1..] == Protect(rest);
      PrefixWasThere(rest, LABEL);
      assert s[0] == '\0';
      Cut(s, "\0", LABEL);
    }
  }

  lemma FakeStartsWithNul(s: string)
    ensures FakeHere(s) ==> s != "" && s[0] == '\0'
  {
  }

  lemma FakeFurther(s: string, k: nat)
    requires k <= |s| && HasFake(s[k..])
    ensures HasFake(s)
  {
    var i :| 0 <= i <= |s[k..]| && FakeHere(s[k..][i..]);
    assert s[k..][i..] == s[k + i..];
  }

  /** A fake starts with a NUL, so not inside a skeleton path. */
  lemma FakePastModule(s: string)
    requires HasPrefix(s, SKELETON_MODULE) && HasFake(s)
    ensures HasFake(s[|SKELETON_MODULE|..])
  {
    LabelFacts();
    var n := |SKELETON_MODULE|;
    var i :| 0 <= i <= |s| && FakeHere(s[i..]);
    assert s[i..][0] == '\0';
    assert forall j :: 0 <= j < n ==> s[j] == s[..n][j];
    assert s[n..][i - n..] == s[i..];
  }

  /** Without fakes, protecting the skeleton path and expanding the sentinel is one
      replacement, for any module, whatever it contains. */
  lemma {:induction false} TwoPhasesAreOne(s: string, mod: string)
    requires !HasFake(s)
    ensures ExpandModule(Protect(s), mod) == ReplaceAll(s, SKELETON_MODULE, mod)
  {
    if s == "" {
    } else if HasPrefix(s, SKELETON_MODULE) {
      var rest := s[|SKELETON_MODULE|..];
      if HasFake(rest) {
        FakeFurther(s, |SKELETON_MODULE|);
      }
      TwoPhasesAreOne(rest, mod);
      ReplaceHead(SENTINEL, Protect(rest), mod);
    } else {
      if HasFake(s[1..]) {
        FakeFurther(s, 1);
      }
      TwoPhasesAreOne(s[1..], mod);
      SentinelIsFake(s);
      assert s[0..] == s;
      assert !FakeHere(s);
      assert Protect(s)[1..] == Protect(s[1..]);
    }
  }

  /** At a fake, the first phase writes a sentinel and the second takes it for a skeleton path. */
  lemma FakeExpands(s: string, mod: string) returns (x: string, y: string)
    requires FakeHere(s)
    ensures ExpandModule(Protect(s), mod) == mod + x
    ensures ReplaceAll(s, SKELETON_MODULE, mod) == "\0" + y
  {
    assert s[0] == '\0' && SKELETON_MODULE[0] == 'g';
    SentinelIsFake(s);
    x := ExpandModule(Protect(s)[|SENTINEL|..], mod);
    y := ReplaceAll(s[1..], SKELETON_MODULE, mod);
  }

  lemma Prepend(h: string, c: string, m: string, x: string)
    ensures h + (c + m + x) == (h + c) + m + x
  {
  }

  /** With a fake, the two results part at a place where one has the module and the other a NUL. */
  lemma {:induction false} FakesPart(s: string, mod: string) returns (c: string, x: string, y: string)
    requires HasFake(s)
    ensures ExpandModule(Protect(s), mod) == c + mod + x
    ensures ReplaceAll(s, SKELETON_MODULE, mod) == c + "\0" + y
  {
    var i :| 0 <= i <= |s| && FakeHere(s[i..]);
    if HasPrefix(s, SKELETON_MODULE) {
      var rest := s[|SKELETON_MODULE|..];
      FakePastModule(s);
      c, x, y := FakesPart(rest, mod);
      ReplaceHead(SENTINEL, Protect(rest), mod);
      Prepend(mod, c, mod, x);
      Prepend(mod, c, "\0", y);
      c := mod + c;
    } else if FakeHere(s) {
      x, y := FakeExpands(s, mod);
      c := "";
    } else {
      assert i > 0 && s[1..][i - 1..] == s[i..];
      SentinelIsFake(s);
      c, x, y := FakesPart(s[1..], mod);
      assert Protect(s)[1..] == Protect(s[1..]);
      Prepend([s[0]], c, mod, x);
      Prepend([s[0]], c, "\0", y);
      c := [s[0]] + c;
    }
  }

  /** A module no longer than the sentinel never makes the two-phase result the longer one. */
  lemma {:induction false} NeverLonger(s: string, mod: string)
    requires |mod| <= |SENTINEL|
    ensures |ExpandModule(Protect(s), mod)| <= |ReplaceAll(s, SKELETON_MODULE, mod)|
    decreases |s|
  {
    if s == "" {
    } else if HasPrefix(s, SKELETON_MODULE) {
      NeverLonger(s[|SKELETON_MODULE|..], mod);
      ReplaceHead(SENTINEL, Protect(s[|SKELETON_MODULE|..]), mod);
    } else if HasPrefix(s, SENTINEL) {
      SentinelKept(s, mod);
      NeverLonger(s[|SENTINEL|..], mod);
    } else if FakeHere(s) {
      var rest := LentLengths(s, mod);
      NeverLonger("\0" + rest, mod);
    } else {
      NeverLonger(s[1..], mod);
      SentinelIsFake(s);
      assert Protect(s)[1..] == Protect(s[1..]);
    }
  }

  lemma SentinelKept(s: string, mod: string)
    requires HasPrefix(s, SENTINEL)
    ensures ExpandModule(Protect(s), mod) == mod + ExpandModule(Protect(s[|SENTINEL|..]), mod)
    ensures ReplaceAll(s, SKELETON_MODULE, mod) == SENTINEL + ReplaceAll(s[|SENTINEL|..], SKELETON_MODULE, mod)
  {
    LabelFacts();
    var rest := s[|SENTINEL|..];
    assert s == SENTINEL + rest;
    CopiedUpTo(SENTINEL, rest, SENTINEL);
    CopiedUpTo(SENTINEL, rest, mod);
    ReplaceHead(SENTINEL, Protect(rest), mod);
  }

  /** One skeleton path, after text that is copied. */
  lemma ReplaceOne(head: string, rest: string, to: string)
    requires forall i :: 0 <= i < |head| ==> head[i] != 'g'
    ensures ReplaceAll(head + (SKELETON_MODULE + rest), SKELETON_MODULE, to) ==
            head + (to + ReplaceAll(rest, SKELETON_MODULE, to))
  {
    CopiedUpTo(head, SKELETON_MODULE + rest, to);
    ReplaceHead(SKELETON_MODULE, rest, to);
  }

  lemma Lend(nul: string, name: string, rest: string)
    ensures (nul + name) + ((nul + name + nul) + rest) == (nul + name + nul) + (name + (nul + rest))
  {
  }

  /** A sentinel that borrows its closing NUL leaves the NUL of the next one behind. */
  lemma LentSentinel(rest: string, mod: string)
    ensures var s := ("\0" + LABEL) + (SKELETON_MODULE + rest);
            && ExpandModule(Protect(s), mod) == mod + (LABEL + ExpandModule(Protect("\0" + rest), mod))
            && ReplaceAll(s, SKELETON_MODULE, mod) == ("\0" + LABEL) + (mod + ReplaceAll(rest, SKELETON_MODULE, mod))
    ensures ReplaceAll("\0" + rest, SKELETON_MODULE, mod) == "\0" + ReplaceAll(rest, SKELETON_MODULE, mod)
  {
    LabelFacts();
    var head, tail := "\0" + LABEL, LABEL + ("\0" + Protect(rest));
    assert forall i :: 0 <= i < |head| ==> head[i] != 'g';
    ReplaceOne(head, rest, SENTINEL);
    ReplaceOne(head, rest, mod);
    CopiedUpTo("\0", rest, SENTINEL);
    CopiedUpTo("\0", rest, mod);
    Lend("\0", LABEL, Protect(rest));
    ReplaceHead(SENTINEL, tail, mod);
    LabelCopied(LABEL, "\0" + Protect(rest), mod);
  }

  lemma LentLengths(s: string, mod: string) returns (rest: string)
    requires HasPrefix(s, "\0" + LABEL + SKELETON_MODULE)
    ensures |rest| + 1 < |s|
    ensures |ExpandModule(Protect(s), mod)| == |mod| + |LABEL| + |ExpandModule(Protect("\0" + rest), mod)|
    ensures |ReplaceAll(s, SKELETON_MODULE, mod)| ==
            |mod| + |LABEL| + |ReplaceAll("\0" + rest, SKELETON_MODULE, mod)|
  {
    rest := s[|LABEL + SKELETON_MODULE| + 1..];
    assert s == ("\0" + LABEL) + (SKELETON_MODULE + rest);
    LentSentinel(rest, mod);
  }

  lemma {:induction false} LabelCopied(w: string, rest: string, mod: string)
    requires '\0' !in w
    ensures ExpandModule(w + rest, mod) == w + ExpandModule(rest, mod)
  {
    if w == "" {
      assert w + rest == rest;
    } else {
      assert (w + rest)[1..] == w[1..] + rest;
      assert (w + rest)[0] != SENTINEL[0];
      LabelCopied(w[1..], rest, mod);
      assert [w[0]] + (w[1..] + ExpandModule(rest, mod)) == w + ExpandModule(rest, mod);
    }
  }

  /** Exactly the contents without fakes come out right. */
  lemma OnePassIffNoFake(raw: string, mod: string)
    requires mod != "" && mod[0] != '\0'
    ensures ExpandModule(Protect(raw), mod) == ReplaceAll(raw, SKELETON_MODULE, mod) <==> !HasFake(raw)
  {
    if HasFake(raw) {
      var c, x, y := FakesPart(raw, mod);
      assert (c + mod + x)[|c|] == mod[0];
      assert (c + "\0" + y)[|c|] == '\0';
    } else {
      TwoPhasesAreOne(raw, mod);
    }
  }

  lemma NotPrefixed(s: string, p: string, k: nat)
    requires k < |s| && k < |p| && s[k] != p[k]
    ensures !HasPrefix(s, p)
  {
    if |p| <= |s| {
      assert s[..|p|][k] == s[k];
    }
  }

  lemma StillPart(c: string, x: string, y: string)
    requires x != "" && y != "" && x[0] != y[0]
    ensures c + x != c + y
  {
    assert (c + x)[|c|] != (c + y)[|c|];
  }

  lemma PrefixOf(p: string, c: string, x: string)
    requires |p| <= |c|
    ensures HasPrefix(c + x, p) <==> HasPrefix(c, p)
    ensures (c + x)[|p|..] == c[|p|..] + x
  {
    assert (c + x)[..|p|] == c[..|p|];
  }

  /** A common start longer than the guard, or equal to it, is stripped alike. */
  lemma PartAfterGuard(c: string, x: string, y: string)
    requires |c| >= |BUILD_GUARD| && x != "" && y != "" && x[0] != y[0] && x[0] != '\n' && y[0] != '\n'
    ensures StripBuildIgnore(c + x) != StripBuildIgnore(c + y)
  {
    var n := |BUILD_GUARD|;
    PrefixOf(BUILD_GUARD, c, x);
    PrefixOf(BUILD_GUARD, c, y);
    StillPart(c, x, y);
    StillPart(c[n..], x, y);
    if |c| > n {
      PrefixOf("\n", c[n..], x);
      PrefixOf("\n", c[n..], y);
      StillPart(c[n..][1..], x, y);
    }
  }

  /** Inside the guard, only the text with the module can have it; the module then fits into
      the guard, so that stripping leaves less than the other text. */
  lemma PartInsideGuard(c: string, mod: string, x: string, y: string)
    requires |c| < |BUILD_GUARD| && mod != "" && mod[0] != '\0' && '\n' !in mod
    requires |mod| <= |SENTINEL| ==> |c + mod + x| <= |c + "\0" + y|
    ensures StripBuildIgnore(c + mod + x) != StripBuildIgnore(c + "\0" + y)
  {
    var s, s', n := c + mod + x, c + "\0" + y, |BUILD_GUARD|;
    assert s[|c|] == mod[0] && s'[|c|] == '\0';
    assert '\0' !in BUILD_GUARD;
    NotPrefixed(s', BUILD_GUARD, |c|);
    if |mod| > |SENTINEL| {
      assert s[n - 1] == mod[n - 1 - |c|];
      NotPrefixed(s, BUILD_GUARD, n - 1);
    }
  }

  /** For the names modules have, Scaffold and AddFeatureFiles write the same plain file if and
      only if its content has no fake. */
  lemma RenderAlikeIff(raw: string, mod: string)
    requires mod != "" && '\0' !in mod && '\n' !in mod
    ensures ScaffoldPlain(raw, mod) == AddFeature(raw, mod) <==> !HasFake(raw)
  {
    if HasFake(raw) {
      var c, x, y := FakesPart(raw, mod);
      if |c| >= |BUILD_GUARD| {
        assert c + mod + x == c + (mod + x) && c + "\0" + y == c + ("\0" + y);
        assert (mod + x)[0] == mod[0];
        PartAfterGuard(c, mod + x, "\0" + y);
      } else {
        if |mod| <= |SENTINEL| {
          NeverLonger(raw, mod);
        }
        PartInsideGuard(c, mod, x, y);
      }
    } else {
      TwoPhasesAreOne(raw, mod);
    }
  }

  /** On a text file, which has no NUL, Scaffold and AddFeatureFiles write the same. */
  lemma SameRendering(raw: string, mod: string)
    requires '\0' !in raw
    ensures ScaffoldPlain(raw, mod) == AddFeature(raw, mod)
  {
    forall i | 0 <= i <= |raw|
      ensures !FakeHere(raw[i..])
    {
      FakeStartsWithNul(raw[i..]);
      assert i < |raw| ==> raw[i..][0] == raw[i];
    }
    TwoPhasesAreOne(raw, mod);
  }

  // ----- what a replacement is -----

  function Joined(pieces: seq<string>, sep: string): string
    requires pieces != []
  {
    if |pieces| == 1 then pieces[0] else pieces[0] + sep + Joined(pieces[1..], sep)
  }

  /** The first `from` in `s` starts at `k`. */
  predicate FirstAt(s: string, from: string, k: nat) {
    k <= |s| && HasPrefix(s[k..], from) && forall i :: 0 <= i < k ==> !HasPrefix(s[i..], from)
  }

  predicate Without(s: string, from: string) {
    forall i :: 0 <= i <= |s| ==> !HasPrefix(s[i..], from)
  }

  /** The text between the occurrences of `from`, each the first one after the last. */
  predicate Cuts(pieces: seq<string>, from: string) {
    && pieces != [] && Without(pieces[|pieces| - 1], from)
    && forall i :: 0 <= i < |pieces| - 1 ==> FirstAt(pieces[i] + from, from, |pieces[i]|)
  }

  lemma CutFurther(c: char, pieces: seq<string>, from: string)
    requires from != "" && Cuts(pieces, from) && !HasPrefix([c] + Joined(pieces, from), from)
    ensures Cuts([[c] + pieces[0]] + pieces[1..], from)
    ensures forall sep: string :: Joined([[c] + pieces[0]] + pieces[1..], sep) == [c] + Joined(pieces, sep)
  {
    var cut, head := [[c] + pieces[0]] + pieces[1..], [c] + pieces[0];
    forall sep: string ensures Joined(cut, sep) == [c] + Joined(pieces, sep) {
      if |pieces| > 1 {
        assert cut[1..] == pieces[1..];
        assert [c] + pieces[0] + sep + Joined(pieces[1..], sep) == [c] + (pieces[0] + sep + Joined(pieces[1..], sep));
      }
    }
    if |pieces| > 1 {
      FirstFurther(c, pieces[0], from, Joined(pieces[1..], from));
    } else {
      forall i | 0 <= i <= |head| ensures !HasPrefix(head[i..], from) {
        assert i > 0 ==> head[i..] == pieces[0][i - 1..];
      }
    }
  }

  lemma FirstFurther(c: char, piece: string, from: string, rest: string)
    requires FirstAt(piece + from, from, |piece|) && !HasPrefix([c] + (piece + from + rest), from)
    ensures FirstAt(([c] + piece) + from, from, |[c] + piece|)
  {
    var s, s' := piece + from, ([c] + piece) + from;
    assert s' == [c] + s;
    forall i | 0 <= i < |piece| + 1 ensures !HasPrefix(s'[i..], from) {
      if i == 0 {
        assert |from| <= |s'| ==> s'[..|from|] == ([c] + (piece + from + rest))[..|from|];
      } else {
        assert s'[i..] == s[i - 1..];
      }
    }
    assert s'[|piece| + 1..] == s[|piece|..];
  }

  /** ReplaceAll puts `to` where, from the left, the occurrences of `from` are, and touches nothing
      between them. */
  lemma {:induction false} ReplacesEveryOccurrence(s: string, from: string) returns (pieces: seq<string>)
    requires from != ""
    ensures Cuts(pieces, from) && Joined(pieces, from) == s
    ensures forall to: string :: ReplaceAll(s, from, to) == Joined(pieces, to)
  {
    if s == "" {
      pieces := [""];
    } else if HasPrefix(s, from) {
      var rest := s[|from|..];
      var cut := ReplacesEveryOccurrence(rest, from);
      pieces := [""] + cut;
      assert pieces[1..] == cut && s == from + rest;
      assert "" + from == from && FirstAt("" + from, from, 0);
      assert forall to: string :: Joined(pieces, to) == "" + to + Joined(cut, to);
    } else {
      var cut := ReplacesEveryOccurrence(s[1..], from);
      assert s == [s[0]] + s[1..];
      CutFurther(s[0], cut, from);
      pieces := [[s[0]] + cut[0]] + cut[1..];
    }
  }

  // ----- the build guard -----

  lemma GuardIsCopied(body: string, mod: string)
    ensures ReplaceAll(BUILD_GUARD + body, SKELETON_MODULE, mod) == BUILD_GUARD + ReplaceAll(body, SKELETON_MODULE, mod)
  {
    assert forall i: nat :: i < |BUILD_GUARD| ==> NoStart(BUILD_GUARD, i);
    CopiedUpTo(BUILD_GUARD, body, mod);
  }

  lemma StripsGuard(rest: string)
    ensures StripBuildIgnore(BUILD_GUARD + rest) == if HasPrefix(rest, "\n") then rest[1..] else rest
  {
    assert (BUILD_GUARD + rest)[..|BUILD_GUARD|] == BUILD_GUARD;
    assert (BUILD_GUARD + rest)[|BUILD_GUARD|..] == rest;
  }

  /** A guarded file comes out without its guard and the blank line after it. */
  lemma GuardAndBlankLineGone(body: string, mod: string)
    ensures AddFeature(BUILD_GUARD + ("\n" + body), mod) == ReplaceAll(body, SKELETON_MODULE, mod)
  {
    GuardIsCopied("\n" + body, mod);
    CopiedUpTo("\n", body, mod);
    var rest := "\n" + ReplaceAll(body, SKELETON_MODULE, mod);
    StripsGuard(rest);
    assert rest[..1] == "\n" && rest[1..] == ReplaceAll(body, SKELETON_MODULE, mod);
  }

  /** Without a blank line, only the guard goes. */
  lemma GuardGone(body: string, mod: string)
    requires !HasPrefix(body, "\n") && mod != "" && mod[0] != '\n'
    ensures AddFeature(BUILD_GUARD + body, mod) == ReplaceAll(body, SKELETON_MODULE, mod)
  {
    GuardIsCopied(body, mod);
    StripsGuard(ReplaceAll(body, SKELETON_MODULE, mod));
    if body != "" {
      assert body[..1] == [body[0]];
    }
  }

  /** Any other file loses nothing. */
  lemma UnguardedIsWhole(raw: string, mod: string)
    requires !HasPrefix(ReplaceAll(raw, SKELETON_MODULE, mod), BUILD_GUARD)
    ensures AddFeature(raw, mod) == ReplaceAll(raw, SKELETON_MODULE, mod)
  {
  }

  /** Scaffold writes plain text files the same way. */
  lemma ScaffoldWrites(body: string, mod: string)
    requires '\0' !in body
    ensures ScaffoldPlain(BUILD_GUARD + ("\n" + body), mod) == ReplaceAll(body, SKELETON_MODULE, mod)
    ensures !HasPrefix(body, "\n") && mod != "" && mod[0] != '\n' ==>
              ScaffoldPlain(BUILD_GUARD + body, mod) == ReplaceAll(body, SKELETON_MODULE, mod)
    ensures !HasPrefix(ReplaceAll(body, SKELETON_MODULE, mod), BUILD_GUARD) ==>
              ScaffoldPlain(body, mod) == ReplaceAll(body, SKELETON_MODULE, mod)
  {
    SameRendering(body, mod);
    SameRendering(BUILD_GUARD + body, mod);
    SameRendering(BUILD_GUARD + ("\n" + body), mod);
    GuardAndBlankLineGone(body, mod);
    if !HasPrefix(body, "\n") && mod != "" && mod[0] != '\n' {
      GuardGone(body, mod);
    }
  }
}
