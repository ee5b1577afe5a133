/** The scan for echoes, the splice and the re-scan that both redactions are built from. */
module Redaction {
  import opened Sequences
  import opened Spans
  import opened Splicing

  /** Long shapes are cut out; a text that holds a short one is withheld. Each stands for the texts it matches. */
  datatype Shapes = Shapes(long: seq<string>, short: seq<string>)

  predicate NoneEmpty(secrets: seq<string>) {
    forall s | s in secrets :: s != ""
  }

  ghost predicate Within(spans: seq<Span>, n: nat) {
    forall s | s in spans :: s.start < s.end <= n
  }

  ghost predicate InRawEcho(value: string, s: string, x: int) {
    exists p: nat :: OccursAt(value, s, p) && p <= x < p + |s|
  }

  /** Every place a secret occurs, overlapping occurrences included. */
  method EchoesOf(text: string, secret: string) returns (echoes: seq<Span>)
    requires secret != ""
    ensures forall e: Span :: e in echoes <==> OccursAt(text, secret, e.start) && e.end == e.start + |secret|
  {
    echoes := [];
    var p := 0;
    while p + |secret| <= |text|
      invariant forall e: Span :: e in echoes <==>
                  e.start < p && OccursAt(text, secret, e.start) && e.end == e.start + |secret|
    {
      if text[p..p + |secret|] == secret {
        echoes := echoes + [Span(p, p + |secret|)];
      }
      p := p + 1;
    }
  }

  lemma RawCover(value: string, s: string, raw: seq<Span>, x: int)
    requires forall e: Span :: e in raw <==> OccursAt(value, s, e.start) && e.end == e.start + |s|
    ensures Covers(raw, x) <==> InRawEcho(value, s, x)
  {
    if InRawEcho(value, s, x) {
      var p: nat :| OccursAt(value, s, p) && p <= x < p + |s|;
      assert Span(p, p + |s|) in raw;
    }
  }

  lemma CoversConcat(a: seq<Span>, b: seq<Span>, x: int)
    ensures Covers(a + b, x) <==> Covers(a, x) || Covers(b, x)
  {
    if Covers(a, x) {
      var s :| s in a && s.start <= x < s.end;
      assert s in a + b;
    }
    if Covers(b, x) {
      var s :| s in b && s.start <= x < s.end;
      assert s in a + b;
    }
  }

  lemma CoveredWithin(cuts: seq<Span>, echoes: seq<Span>, n: nat)
    requires NormalForm(cuts) && Within(echoes, n) && forall x: int :: Covers(cuts, x) <==> Covers(echoes, x)
    ensures CutsWithin(cuts, 0, n)
  {
    forall s | s in cuts ensures s.end <= n {
      assert s.start < s.end && Covers(cuts, s.end - 1);
    }
  }

  predicate InsideAMarker(p: nat, n: nat, markers: seq<nat>) {
    exists m | m in markers :: m <= p && p + n <= m + |REDACTED|
  }

  /** Every occurrence of every secret lies inside one inserted marker. */
  ghost predicate AllInsideMarkers(text: string, secrets: seq<string>, markers: seq<nat>) {
    forall s, p: nat | s in secrets && OccursAt(text, s, p) :: InsideAMarker(p, |s|, markers)
  }

  method SpelledOnlyInsideMarkers(text: string, secrets: seq<string>, markers: seq<nat>) returns (ok: bool)
    requires forall s | s in secrets :: s != ""
    ensures ok <==> AllInsideMarkers(text, secrets, markers)
  {
    for i := 0 to |secrets|
      invariant AllInsideMarkers(text, secrets[..i], markers)
    {
      assert secrets[i] in secrets;
      var echoes := EchoesOf(text, secrets[i]);
      for j := 0 to |echoes|
        invariant forall k | 0 <= k < j :: InsideAMarker(echoes[k].start, |secrets[i]|, markers)
      {
        if !InsideAMarker(echoes[j].start, |secrets[i]|, markers) {
          assert echoes[j] in echoes;
          return false;
        }
      }
      forall p: nat | OccursAt(text, secrets[i], p) ensures InsideAMarker(p, |secrets[i]|, markers) {
        assert Span(p, p + |secrets[i]|) in echoes;
      }
    }
    assert secrets[..|secrets|] == secrets;
    ok := true;
  }

  predicate HoldsAny(text: string, secrets: seq<string>) {
    exists s | s in secrets :: Holds(text, s)
  }

  predicate Holds(text: string, s: string) {
    exists p: nat | p <= |text| :: OccursAt(text, s, p)
  }

  lemma NeverOccurs(text: string, secrets: seq<string>)
    requires !HoldsAny(text, secrets)
    ensures forall s, p: nat | s in secrets :: !OccursAt(text, s, p)
  {
    forall s, p: nat | s in secrets ensures !OccursAt(text, s, p) {
      assert !Holds(text, s);
    }
  }

  lemma HeldMeans(text: string, secrets: seq<string>)
    ensures HoldsAny(text, secrets) <==> exists s, p: nat | s in secrets :: OccursAt(text, s, p)
  {
    if s, p: nat :| s in secrets && OccursAt(text, s, p) {
      assert Holds(text, s);
    }
    if HoldsAny(text, secrets) {
      var s :| s in secrets && Holds(text, s);
      var p: nat :| p <= |text| && OccursAt(text, s, p);
    }
  }

  lemma NothingHeld(text: string, shapes: Shapes)
    requires !HoldsAny(text, shapes.long + shapes.short)
    ensures !HoldsAny(text, shapes.short)
  {
    forall s | s in shapes.short ensures !Holds(text, s) {
      assert s in shapes.long + shapes.short;
    }
  }

  /** The loop has placed the first i cuts: what it has and what is left make the whole. */
  ghost predicate Placing(value: string, keep: Charset, cuts: seq<Span>, i: nat, from: nat, text: string,
                          markers: seq<nat>) {
    && CutsWithin(cuts, 0, |value|) && i <= |cuts| && CutsWithin(cuts[i..], from, |value|)
    && text + Splice(value, keep, cuts[i..], from) == Splice(value, keep, cuts, 0)
    && markers + MarkersFrom(value, keep, cuts[i..], from, |text|) == MarkersFrom(value, keep, cuts, 0, 0)
  }

  lemma PlaceOne(value: string, keep: Charset, cuts: seq<Span>, i: nat, from: nat, text: string, markers: seq<nat>)
    requires Placing(value, keep, cuts, i, from, text, markers) && i < |cuts|
    ensures cuts[i..][0] == cuts[i] && from <= cuts[i].start <= |value|
    ensures var before := text + Drop(value[from..cuts[i].start], keep);
            Placing(value, keep, cuts, i + 1, cuts[i].end, before + REDACTED, markers + [|before|])
  {
    var left := cuts[i..];
    assert left[0] == cuts[i] && left[1..] == cuts[i + 1..];
    RestWithin(left, from, |value|);
    var piece, rest := Drop(value[from..left[0].start], keep), Splice(value, keep, left[1..], left[0].end);
    assert Splice(value, keep, left, from) == piece + REDACTED + rest;
    Regroup(text, piece + REDACTED, rest);
    Regroup(text, piece, REDACTED);
    var marks := MarkersFrom(value, keep, left[1..], left[0].end, |text + piece + REDACTED|);
    assert MarkersFrom(value, keep, left, from, |text|) == [|text + piece|] + marks;
    Regroup(markers, [|text + piece|], marks);
  }

  /** The splice, built cut by cut, and the offsets of the markers put in. */
  method TextAroundCuts(value: string, keep: Charset, cuts: seq<Span>) returns (text: string, markers: seq<nat>)
    requires CutsWithin(cuts, 0, |value|)
    ensures text == Splice(value, keep, cuts, 0)
    ensures markers == MarkersFrom(value, keep, cuts, 0, 0)
  {
    var from := 0;
    text, markers := "", [];
    assert cuts[0..] == cuts;
    for i := 0 to |cuts|
      invariant 0 <= from && Placing(value, keep, cuts, i, from, text, markers)
    {
      PlaceOne(value, keep, cuts, i, from, text, markers);
      text := text + Drop(value[from..cuts[i].start], keep);
      markers := markers + [|text|];
      text := text + REDACTED;
      from := cuts[i].end;
    }
    assert cuts[|cuts|..] == [];
    text := text + Drop(value[from..], keep);
  }

  // ------------------------------------------------------------------ what a shown text gives away

  /** No character of the stretch is the text's own. */
  predicate NoneFromText(os: seq<Origin>, p: nat, n: nat) {
    p + n <= |os| && forall k | p <= k < p + n :: os[k].Inserted?
  }

  /**
   * `part` is what stands from lo on in the spliced text: every secret it spells lies inside one
   * inserted marker, so no character of it came from the text.
   */
  ghost predicate ShowsNoSecret(part: string, lo: nat, secrets: seq<string>, markers: seq<nat>, os: seq<Origin>) {
    forall s, p: nat | s in secrets && OccursAt(part, s, p) ::
      InsideAMarker(lo + p, |s|, markers) && NoneFromText(os, lo + p, |s|)
  }

  lemma InsideIsInserted(os: seq<Origin>, markers: seq<nat>, p: nat, n: nat)
    requires BeginMarkers(os, markers, 0) && InsideAMarker(p, n, markers)
    ensures NoneFromText(os, p, n)
  {
    var m :| m in markers && m <= p && p + n <= m + |REDACTED|;
    assert InsertedAt(os, m - 0);
    forall k | p <= k < p + n ensures os[k].Inserted? {
      assert os[m + (k - m)] == Inserted(k - m);
    }
  }

  /** The re-scan's verdict survives taking any part of the text. */
  lemma PartShowsNoSecret(value: string, keep: Charset, cuts: seq<Span>, secrets: seq<string>, lo: nat, hi: nat)
    requires CutsWithin(cuts, 0, |value|)
    requires AllInsideMarkers(Splice(value, keep, cuts, 0), secrets, MarkersFrom(value, keep, cuts, 0, 0))
    requires lo <= hi <= |Splice(value, keep, cuts, 0)|
    ensures ShowsNoSecret(Splice(value, keep, cuts, 0)[lo..hi], lo, secrets,
                          MarkersFrom(value, keep, cuts, 0, 0), Origins(value, keep, cuts, 0))
  {
    var out, ms, os := Splice(value, keep, cuts, 0), MarkersFrom(value, keep, cuts, 0, 0),
        Origins(value, keep, cuts, 0);
    MarkersBegin(value, keep, cuts, 0, 0);
    forall s, p: nat | s in secrets && OccursAt(out[lo..hi], s, p)
      ensures InsideAMarker(lo + p, |s|, ms) && NoneFromText(os, lo + p, |s|)
    {
      assert out[lo..hi][p..p + |s|] == out[lo + p..lo + p + |s|];
      assert OccursAt(out, s, lo + p);
      InsideIsInserted(os, ms, lo + p, |s|);
    }
  }

  /** An occurrence that overlaps a marker without lying inside one: the only reason to withhold a cut text. */
  ghost predicate SpelledAcrossAMarker(out: string, secrets: seq<string>, markers: seq<nat>) {
    exists s, p: nat, m | s in secrets && m in markers ::
      && OccursAt(out, s, p) && p < m + 10 && m < p + |s|
      && !exists n | n in markers :: n <= p && p + |s| <= n + 10
  }

  /** An inserted character stands in a listed marker. */
  lemma InsertedIsListed(value: string, keep: Charset, cuts: seq<Span>, k: nat) returns (m: nat)
    requires CutsWithin(cuts, 0, |value|) && k < |Origins(value, keep, cuts, 0)|
    requires Origins(value, keep, cuts, 0)[k].Inserted?
    ensures m in MarkersFrom(value, keep, cuts, 0, 0) && m <= k < m + |REDACTED|
  {
    MarkersListed(value, keep, cuts, 0, 0);
    SpliceTraced(value, keep, cuts, 0);
    var os, ms := Origins(value, keep, cuts, 0), MarkersFrom(value, keep, cuts, 0, 0);
    assert IsListed(ms, k - os[k].nth + 0);
    m := k - os[k].nth;
  }

  lemma EchoOverlapsAMarker(value: string, keep: Charset, cuts: seq<Span>, s: string, p: nat) returns (m: nat)
    requires CutsWithin(cuts, 0, |value|) && s != "" && FilteredEchoesCut(value, keep, cuts, s)
    requires OccursAt(Splice(value, keep, cuts, 0), s, p)
    ensures m in MarkersFrom(value, keep, cuts, 0, 0) && p < m + |REDACTED| && m < p + |s|
  {
    EchoReachesAMarker(value, keep, cuts, s, p);
    var k :| p <= k < p + |s| && Origins(value, keep, cuts, 0)[k].Inserted?;
    m := InsertedIsListed(value, keep, cuts, k);
  }

  lemma WithheldOnlyAcrossMarkers(value: string, keep: Charset, cuts: seq<Span>, secrets: seq<string>)
    requires CutsWithin(cuts, 0, |value|)
    requires forall s | s in secrets :: s != "" && FilteredEchoesCut(value, keep, cuts, s)
    ensures var out, ms := Splice(value, keep, cuts, 0), MarkersFrom(value, keep, cuts, 0, 0);
            AllInsideMarkers(out, secrets, ms) <==> !SpelledAcrossAMarker(out, secrets, ms)
  {
    var out, ms := Splice(value, keep, cuts, 0), MarkersFrom(value, keep, cuts, 0, 0);
    if !AllInsideMarkers(out, secrets, ms) {
      var s, p: nat :| s in secrets && OccursAt(out, s, p) && !InsideAMarker(p, |s|, ms);
      var m := EchoOverlapsAMarker(value, keep, cuts, s, p);
    }
  }
}
