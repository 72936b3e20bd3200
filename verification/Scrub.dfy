// The log safety net that masks `nsec1...` key material.
module Scrub {
  import opened Prelude

  const MARKER := "nsec1"
  const REDACTED := "[redacted]"

  function Lower(c: char): char {
    if 'A' <= c <= 'Z' then (c as int + 32) as char else c
  }

  predicate IsAlphanumeric(c: char) {
    '0' <= c <= '9' || 'a' <= c <= 'z' || 'A' <= c <= 'Z'
  }

  // A marker in any casing starts at `i`.
  predicate MarkerAt(s: string, i: nat) {
    && i + 5 <= |s|
    && Lower(s[i]) == 'n' && Lower(s[i + 1]) == 's' && Lower(s[i + 2]) == 'e'
    && Lower(s[i + 3]) == 'c' && s[i + 4] == '1'
  }

  predicate HasMarker(s: string) {
    exists i :: 0 <= i < |s| && MarkerAt(s, i)
  }

  function FindFrom(s: string, i: nat): (found: Option<nat>)
    requires i <= |s|
    ensures found.Some? ==>
      i <= found.value && MarkerAt(s, found.value) && forall j :: i <= j < found.value ==> !MarkerAt(s, j)
    ensures found.None? ==> forall j :: i <= j < |s| ==> !MarkerAt(s, j)
    decreases |s| - i
  {
    if i == |s| then None
    else if MarkerAt(s, i) then Some(i)
    else FindFrom(s, i + 1)
  }

  // The first marker, as a scan over windows finds it.
  function FindMarker(s: string): Option<nat> {
    FindFrom(s, 0)
  }

  // The length of the leading alphanumeric run.
  function RunLength(s: string): (n: nat)
    ensures n <= |s|
    ensures forall i :: 0 <= i < n ==> IsAlphanumeric(s[i])
    ensures n < |s| ==> !IsAlphanumeric(s[n])
  {
    if s == [] || !IsAlphanumeric(s[0]) then 0 else 1 + RunLength(s[1..])
  }

  function Scrubbed(s: string): string
    decreases |s|
  {
    if FindMarker(s).None? then s
    else
      var after := FindMarker(s).value + 5;
      var tail := s[after..];
      s[..after] + REDACTED + Scrubbed(tail[RunLength(tail)..])
  }

  method ScrubSecrets(message: string) returns (clean: string)
    ensures clean == Scrubbed(message)
    ensures !HasMarker(message) ==> clean == message
  {
    if FindMarker(message).None? {
      return message;
    }
    var out, rest := "", message;
    while FindMarker(rest).Some?
      invariant out + Scrubbed(rest) == Scrubbed(message)
      decreases |rest|
    {
      ghost var before := out;
      var after := FindMarker(rest).value + |MARKER|;
      out := out + rest[..after];
      out := out + REDACTED;
      var tail := rest[after..];
      var skip := RunLength(tail);
      Associate(before, rest[..after], REDACTED, Scrubbed(tail[skip..]));
      rest := tail[skip..];
    }
    clean := out + rest;
  }

  lemma Associate(a: string, b: string, c: string, d: string)
    ensures a + b + c + d == a + (b + c + d)
  {
  }

  // ---- Every marker left in the output is followed by the mask ---------------------

  // Said apart from the scan: a marker in any casing, and what belongs to a key.
  ghost predicate SpellsMarker(s: string, i: nat) {
    && i + 5 <= |s|
    && (s[i] == 'n' || s[i] == 'N') && (s[i + 1] == 's' || s[i + 1] == 'S') && (s[i + 2] == 'e' || s[i + 2] == 'E')
    && (s[i + 3] == 'c' || s[i + 3] == 'C') && s[i + 4] == '1'
  }

  ghost predicate BelongsToKey(c: char) {
    ('0' <= c && c <= '9') || ('a' <= c && c <= 'z') || ('A' <= c && c <= 'Z')
  }

  lemma ScanFindsMarkers(s: string, i: nat)
    ensures MarkerAt(s, i) <==> SpellsMarker(s, i)
  {
  }

  lemma NoMarkerIsSpelled(s: string)
    ensures FindMarker(s).None? <==> forall i: nat :: !SpellsMarker(s, i)
  {
    if FindMarker(s).Some? {
      ScanFindsMarkers(s, FindMarker(s).value);
    } else {
      forall i: nat ensures !SpellsMarker(s, i) {
        ScanFindsMarkers(s, i);
      }
    }
  }

  lemma KeptEndsAtFirstMarker(s: string)
    requires FindMarker(s).Some?
    ensures var after := FindMarker(s).value + 5;
      after <= |s| && forall i: nat :: SpellsMarker(s[..after], i) <==> i == after - 5
  {
    var after := FindMarker(s).value + 5;
    ScanFindsMarkers(s, after - 5);
    forall i: nat ensures SpellsMarker(s[..after], i) <==> i == after - 5 {
      ScanFindsMarkers(s, i);
      if i + 5 <= after {
        assert SpellsMarker(s[..after], i) <==> SpellsMarker(s, i);
      }
    }
  }

  // The run taken off is the leading digits and letters, to the last of them.
  lemma {:induction false} RunIsTheKey(s: string)
    ensures forall i :: 0 <= i < RunLength(s) ==> BelongsToKey(s[i])
    ensures RunLength(s) < |s| ==> !BelongsToKey(s[RunLength(s)])
  {
  }

  // The mask follows, and nothing of the key follows the mask.
  ghost predicate MaskedAt(s: string, i: nat) {
    && i + 15 <= |s| && s[i + 5..i + 15] == REDACTED
    && (i + 15 < |s| ==> !BelongsToKey(s[i + 15]))
  }

  ghost predicate AllMasked(s: string) {
    forall i: nat :: SpellsMarker(s, i) ==> MaskedAt(s, i)
  }

  lemma MaskFollowsKept(kept: string, rest: string)
    requires |kept| >= 5 && (rest != [] ==> !BelongsToKey(rest[0]))
    ensures MaskedAt(kept + REDACTED + rest, |kept| - 5)
  {
    var out := kept + REDACTED + rest;
    assert out[|kept|..|kept| + 10] == REDACTED;
    assert rest != [] ==> out[|kept| + 10] == rest[0];
  }

  lemma RestIsKept(front: string, rest: string, j: nat)
    ensures SpellsMarker(front + rest, |front| + j) <==> SpellsMarker(rest, j)
    ensures MaskedAt(rest, j) ==> MaskedAt(front + rest, |front| + j)
  {
    var out := front + rest;
    assert forall k :: 0 <= k < |rest| ==> out[|front| + k] == rest[k];
    if MaskedAt(rest, j) {
      assert out[|front| + j + 5..|front| + j + 15] == rest[j + 5..j + 15];
    }
  }

  lemma FrontIsKept(front: string, rest: string, i: nat)
    requires i + 5 <= |front|
    ensures SpellsMarker(front + rest, i) <==> SpellsMarker(front, i)
  {
  }

  // Joining text that ends with its only marker, the mask, and masked text.
  lemma Seam(kept: string, rest: string)
    requires forall i: nat :: SpellsMarker(kept, i) ==> i == |kept| - 5
    requires AllMasked(rest) && (rest != [] ==> !BelongsToKey(rest[0]))
    ensures AllMasked(kept + REDACTED + rest)
  {
    var out := kept + REDACTED + rest;
    forall i: nat | SpellsMarker(out, i) ensures MaskedAt(out, i) {
      if i + 5 <= |kept| {
        assert out == kept + (REDACTED + rest);
        FrontIsKept(kept, REDACTED + rest, i);
        MaskFollowsKept(kept, rest);
      } else if i >= |kept| + 10 {
        RestIsKept(kept + REDACTED, rest, i - |kept| - 10);
      } else {
        MaskHasNoMarkerStart(kept, rest, i);
      }
    }
  }

  lemma MaskHasNoMarkerStart(kept: string, rest: string, i: nat)
    requires |kept| < i + 5 && i < |kept| + 10
    ensures !SpellsMarker(kept + REDACTED + rest, i)
  {
    var out := kept + REDACTED + rest;
    assert out[|kept|] == '[' && forall k :: 0 <= k < 10 ==> out[|kept| + k] == REDACTED[k];
    if i < |kept| {
      var k := |kept| - i;
      assert out[i + k] == '[';
    } else {
      var k := i - |kept|;
      assert out[|kept| + k] == REDACTED[k];
    }
  }

  lemma StartStays(s: string)
    ensures s == [] ==> Scrubbed(s) == []
    ensures s != [] ==> Scrubbed(s) != [] && Scrubbed(s)[0] == s[0]
  {
  }

  // In the scrubbed text every marker is followed by the mask, and the mask by
  // nothing of the key.
  lemma {:induction false} EveryMarkerIsMasked(s: string)
    ensures AllMasked(Scrubbed(s))
    decreases |s|
  {
    if FindMarker(s).None? {
      NoMarkerIsSpelled(s);
    } else {
      var after := FindMarker(s).value + 5;
      var tail := s[after..];
      KeptEndsAtFirstMarker(s);
      EveryMarkerIsMasked(tail[RunLength(tail)..]);
      StartStays(tail[RunLength(tail)..]);
      RunIsTheKey(tail);
      Seam(s[..after], Scrubbed(tail[RunLength(tail)..]));
    }
  }

  // ---- What is removed, what is kept --------------------------------------------------

  // A stretch of kept text and the alphanumeric run removed after it.
  datatype Piece = Piece(kept: string, removed: string)

  ghost function Original(pieces: seq<Piece>, tail: string): string {
    if pieces == [] then tail else pieces[0].kept + pieces[0].removed + Original(pieces[1..], tail)
  }

  ghost function Masked(pieces: seq<Piece>, tail: string): string {
    if pieces == [] then tail else pieces[0].kept + REDACTED + Masked(pieces[1..], tail)
  }

  // Kept text ends with its only marker; what follows the marker is removed up
  // to the first character that cannot belong to the key.
  ghost predicate CutsAfterMarkers(pieces: seq<Piece>, tail: string) {
    if pieces == [] then forall i: nat :: !SpellsMarker(tail, i)
    else
      var p, next := pieces[0], Original(pieces[1..], tail);
      && |p.kept| >= 5
      && (forall i :: 0 <= i < |p.kept| ==> (SpellsMarker(p.kept, i) <==> i == |p.kept| - 5))
      && (forall i :: 0 <= i < |p.removed| ==> BelongsToKey(p.removed[i]))
      && (next != [] ==> !BelongsToKey(next[0]))
      && CutsAfterMarkers(pieces[1..], tail)
  }

  // The message and its scrubbed form are the same kept text in the same order,
  // with each removed run replaced by the mask.
  lemma {:induction false} ScrubbedKeepsTheRest(s: string) returns (pieces: seq<Piece>, tail: string)
    ensures CutsAfterMarkers(pieces, tail)
    ensures s == Original(pieces, tail) && Scrubbed(s) == Masked(pieces, tail)
    decreases |s|
  {
    if FindMarker(s).None? {
      NoMarkerIsSpelled(s);
      pieces, tail := [], s;
    } else {
      var pos := FindMarker(s).value;
      var kept, after := s[..pos + 5], s[pos + 5..];
      var n := RunLength(after);
      var more, end := ScrubbedKeepsTheRest(after[n..]);
      pieces, tail := [Piece(kept, after[..n])] + more, end;
      KeptEndsAtFirstMarker(s);
      RunIsTheKey(after);
      OneMorePiece(kept, after[..n], more, end);
      assert s == kept + after[..n] + after[n..];
    }
  }

  lemma OneMorePiece(kept: string, removed: string, more: seq<Piece>, tail: string)
    requires |kept| >= 5 && CutsAfterMarkers(more, tail)
    requires forall i: nat :: SpellsMarker(kept, i) <==> i == |kept| - 5
    requires forall i :: 0 <= i < |removed| ==> BelongsToKey(removed[i])
    requires Original(more, tail) != [] ==> !BelongsToKey(Original(more, tail)[0])
    ensures var pieces := [Piece(kept, removed)] + more;
      && CutsAfterMarkers(pieces, tail)
      && Original(pieces, tail) == kept + removed + Original(more, tail)
      && Masked(pieces, tail) == kept + REDACTED + Masked(more, tail)
  {
    assert ([Piece(kept, removed)] + more)[1..] == more;
  }

  // ---- Scrubbing twice ---------------------------------------------------------------

  lemma TailIsMasked(s: string, from: nat)
    requires from <= |s| && AllMasked(s)
    ensures AllMasked(s[from..])
  {
    var tail := s[from..];
    forall i: nat | SpellsMarker(tail, i) ensures MaskedAt(tail, i) {
      assert SpellsMarker(s, from + i);
      assert tail[i + 5..i + 15] == s[from + i + 5..from + i + 15];
    }
  }

  lemma {:induction false} MaskedTextOnlyGrows(s: string)
    requires AllMasked(s)
    ensures |Scrubbed(s)| >= |s| && (HasMarker(s) ==> |Scrubbed(s)| > |s|)
    decreases |s|
  {
    if FindMarker(s).Some? {
      var after := FindMarker(s).value + 5;
      var tail := s[after..];
      KeptEndsAtFirstMarker(s);
      FrontIsKept(s[..after], tail, after - 5);
      assert s == s[..after] + tail;
      assert MaskedAt(s, after - 5) && tail[0] == s[after..after + 10][0];
      assert RunLength(tail) == 0 && tail[0..] == tail;
      TailIsMasked(s, after);
      MaskedTextOnlyGrows(tail);
    }
  }

  // A second pass changes the text exactly when there was anything to mask.
  lemma SecondPassIsStableOnlyWithoutMarkers(s: string)
    ensures Scrubbed(Scrubbed(s)) == Scrubbed(s) <==> !HasMarker(s)
  {
    if HasMarker(s) {
      var out := Scrubbed(s);
      var pos := FindMarker(s).value;
      assert forall i :: 0 <= i < pos + 5 ==> out[i] == s[i];
      assert MarkerAt(out, pos);
      EveryMarkerIsMasked(s);
      MaskedTextOnlyGrows(out);
    }
  }
}
