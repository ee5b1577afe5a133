/**
 * redactSentCredentials: the error text of a refused login. Unlike the OAuth fields it goes through
 * no charset, its cuts also hold bearer tokens and XOAUTH2 blobs the caller never sent, and it is
 * capped after the last scan.
 */
module CredentialRedaction {
  import opened Spans
  import opened Splicing
  import opened Redaction

  const MAX_ERROR_TEXT_LENGTH: nat := 300

  const TRUNCATION_MARKER: string := "\U{2026}"

  const EVERYTHING: Charset := c => true

  ghost predicate InEcho(text: string, secrets: seq<string>, x: int) {
    exists s | s in secrets :: InRawEcho(text, s, x)
  }

  /** The cuts: exactly what the echoes and the blobs cover. */
  ghost predicate AreCuts(text: string, secrets: seq<string>, blobs: seq<Span>, cuts: seq<Span>) {
    && CutsWithin(cuts, 0, |text|)
    && forall x: int :: Covers(cuts, x) <==> InEcho(text, secrets, x) || Covers(blobs, x)
  }

  method FindCuts(text: string, secrets: seq<string>, blobs: seq<Span>) returns (cuts: seq<Span>)
    requires NoneEmpty(secrets) && Within(blobs, |text|)
    ensures AreCuts(text, secrets, blobs, cuts)
  {
    var echoes: seq<Span> := [];
    for i := 0 to |secrets|
      invariant Within(echoes, |text|)
      invariant forall x: int :: Covers(echoes, x) <==> InEcho(text, secrets[..i], x)
    {
      assert secrets[i] in secrets;
      var more := EchoesOf(text, secrets[i]);
      assert secrets[..i + 1] == secrets[..i] + [secrets[i]];
      forall x: int ensures Covers(echoes + more, x) <==> InEcho(text, secrets[..i + 1], x) {
        CoversConcat(echoes, more, x);
        RawCover(text, secrets[i], more, x);
        EchoOfOneMore(text, secrets[..i], secrets[i], x);
      }
      echoes := echoes + more;
    }
    assert secrets[..|secrets|] == secrets;
    cuts := MergeSpans(echoes + blobs);
    forall x: int ensures Covers(cuts, x) <==> InEcho(text, secrets, x) || Covers(blobs, x) {
      CoversConcat(echoes, blobs, x);
    }
    CoveredWithin(cuts, echoes + blobs, |text|);
  }

  lemma EchoOfOneMore(text: string, secrets: seq<string>, s: string, x: int)
    ensures InEcho(text, secrets + [s], x) <==> InEcho(text, secrets, x) || InRawEcho(text, s, x)
  {
    assert s in secrets + [s];
    if InEcho(text, secrets, x) {
      var t :| t in secrets && InRawEcho(text, t, x);
      assert t in secrets + [s];
    }
  }

  function Capped(text: string): string {
    if |text| <= MAX_ERROR_TEXT_LENGTH then text
    else text[..MAX_ERROR_TEXT_LENGTH - |TRUNCATION_MARKER|] + TRUNCATION_MARKER
  }

  /** What is repeated of a text, before the cap. */
  ghost predicate IsRedacted(text: string, shapes: Shapes, cuts: seq<Span>, out: string)
    requires CutsWithin(cuts, 0, |text|)
  {
    var whole, markers := Splice(text, EVERYTHING, cuts, 0), MarkersFrom(text, EVERYTHING, cuts, 0, 0);
    out == if HoldsAny(text, shapes.short) || !AllInsideMarkers(whole, shapes.long + shapes.short, markers)
           then REDACTED else whole
  }

  method RedactSentCredentials(text: string, shapes: Shapes, blobs: seq<Span>) returns (shown: string)
    requires NoneEmpty(shapes.long) && NoneEmpty(shapes.short) && Within(blobs, |text|)
    ensures exists cuts, out | AreCuts(text, shapes.long, blobs, cuts) && IsRedacted(text, shapes, cuts, out) ::
              shown == Capped(out)
    ensures |shown| <= 300
  {
    var spans := FindCuts(text, shapes.long, blobs);
    if HoldsAny(text, shapes.short) {
      assert IsRedacted(text, shapes, spans, REDACTED);
      return REDACTED;
    }
    var redacted, markers := TextAroundCuts(text, EVERYTHING, spans);
    var ok := SpelledOnlyInsideMarkers(redacted, shapes.long + shapes.short, markers);
    if !ok {
      assert IsRedacted(text, shapes, spans, REDACTED);
      return REDACTED;
    }
    assert IsRedacted(text, shapes, spans, redacted);
    shown := Capped(redacted);
  }

  // ------------------------------------------------------------------ before the cap

  /** Before the cap: withheld, or every secret the text spells lies inside one inserted marker. */
  lemma TextShowsNoSecret(text: string, shapes: Shapes, cuts: seq<Span>, out: string)
    requires CutsWithin(cuts, 0, |text|) && IsRedacted(text, shapes, cuts, out)
    ensures out == REDACTED
         || (out == Splice(text, EVERYTHING, cuts, 0)
             && ShowsNoSecret(out, 0, shapes.long + shapes.short,
                              MarkersFrom(text, EVERYTHING, cuts, 0, 0), Origins(text, EVERYTHING, cuts, 0)))
  {
    if out != REDACTED {
      PartShowsNoSecret(text, EVERYTHING, cuts, shapes.long + shapes.short, 0, |out|);
      assert out[0..|out|] == out;
    }
  }

  /** What is cut, occurrence by occurrence: all of each one of a secret, all of each blob, and nothing else. */
  lemma CutsAreOccurrences(text: string, shapes: Shapes, blobs: seq<Span>, cuts: seq<Span>)
    requires AreCuts(text, shapes.long, blobs, cuts)
    ensures forall s, p: nat, x: int | s in shapes.long && OccursAt(text, s, p) && p <= x < p + |s| :: Covers(cuts, x)
    ensures forall b, x: int | b in blobs && b.start <= x < b.end :: Covers(cuts, x)
    ensures forall x: int | Covers(cuts, x) ::
              || (exists s, p: nat | s in shapes.long :: OccursAt(text, s, p) && p <= x < p + |s|)
              || (exists b | b in blobs :: b.start <= x < b.end)
  {
    forall s, p: nat, x: int | s in shapes.long && OccursAt(text, s, p) && p <= x < p + |s| ensures Covers(cuts, x) {
      assert InRawEcho(text, s, x);
    }
    forall b, x: int | b in blobs && b.start <= x < b.end ensures Covers(cuts, x) {
      assert Covers(blobs, x);
    }
  }

  /** A text that is not withheld keeps, in order, exactly the characters outside every echo and every blob. */
  lemma OnlyEchoesAndBlobsAreCut(text: string, shapes: Shapes, blobs: seq<Span>, cuts: seq<Span>)
    requires AreCuts(text, shapes.long, blobs, cuts)
    ensures var out, os := Splice(text, EVERYTHING, cuts, 0), Origins(text, EVERYTHING, cuts, 0);
            && InTextOrder(os)
            && forall i: nat | i < |text| ::
                 Stands(text, out, os, i) <==> !InEcho(text, shapes.long, i) && !Covers(blobs, i)
  {
    StandsExactlyUncut(text, EVERYTHING, cuts);
  }

  lemma {:induction false} NothingDropped(text: string)
    ensures Drop(text, EVERYTHING) == text
    decreases |text|
  {
    if text != "" {
      NothingDropped(text[..|text| - 1]);
    }
  }

  lemma EchoesAreCut(text: string, shapes: Shapes, blobs: seq<Span>, cuts: seq<Span>, s: string)
    requires AreCuts(text, shapes.long, blobs, cuts) && NoneEmpty(shapes.long) && NoneEmpty(shapes.short)
    requires !HoldsAny(text, shapes.short) && s in shapes.long + shapes.short
    ensures s != "" && FilteredEchoesCut(text, EVERYTHING, cuts, s)
  {
    NothingDropped(text);
    FilteredView(text, EVERYTHING);
    NeverOccurs(text, shapes.short);
    KeptWhere(text);
    if s in shapes.long {
      forall p | 0 <= p < |text| && OccursAt(text, s, p) ensures Covers(cuts, p) {
        assert InRawEcho(text, s, p);
      }
    }
  }

  /** Without a charset every offset is kept at its own place. */
  lemma KeptWhere(text: string)
    ensures |KeptAt(text, EVERYTHING)| == |text| && forall k | 0 <= k < |text| :: KeptAt(text, EVERYTHING)[k] == k
  {
    EveryOffset(text, |text|);
  }

  lemma {:induction false} EveryOffset(text: string, upto: nat)
    requires upto <= |text|
    ensures var r := KeptIn(text, EVERYTHING, 0, upto); |r| == upto && forall k | 0 <= k < upto :: r[k] == k
  {
    if upto > 0 {
      EveryOffset(text, upto - 1);
    }
  }

  /** A text without short shapes is withheld whole exactly when a secret is spelled across a marker. */
  lemma WithheldExactlyWhenSpelledAcross(text: string, shapes: Shapes, blobs: seq<Span>, cuts: seq<Span>, out: string)
    requires NoneEmpty(shapes.long) && NoneEmpty(shapes.short) && !HoldsAny(text, shapes.short)
    requires AreCuts(text, shapes.long, blobs, cuts) && IsRedacted(text, shapes, cuts, out)
    ensures var whole, ms := Splice(text, EVERYTHING, cuts, 0), MarkersFrom(text, EVERYTHING, cuts, 0, 0);
            out == if SpelledAcrossAMarker(whole, shapes.long + shapes.short, ms) then REDACTED else whole
  {
    forall s | s in shapes.long + shapes.short ensures s != "" && FilteredEchoesCut(text, EVERYTHING, cuts, s) {
      EchoesAreCut(text, shapes, blobs, cuts, s);
    }
    WithheldOnlyAcrossMarkers(text, EVERYTHING, cuts, shapes.long + shapes.short);
  }

  /** A text that holds no secret and no blob is repeated unchanged, the cap aside. */
  lemma CleanTextIsKept(text: string, shapes: Shapes, cuts: seq<Span>, out: string)
    requires AreCuts(text, shapes.long, [], cuts) && IsRedacted(text, shapes, cuts, out)
    requires !HoldsAny(text, shapes.long + shapes.short)
    ensures out == text
  {
    NeverOccurs(text, shapes.long + shapes.short);
    forall s, x: int | s in shapes.long ensures !InRawEcho(text, s, x) {
      assert s in shapes.long + shapes.short;
    }
    FirstSpan(cuts);
    NothingHeld(text, shapes);
    NothingDropped(text);
    assert text[0..] == text;
  }

  // ------------------------------------------------------------------ after the cap

  /** A text of at most 300 characters is shown whole; of a longer one the first 299, and the mark. */
  lemma CapKeeps(out: string)
    ensures |out| <= 300 ==> Capped(out) == out
    ensures |out| > 300 ==> |Capped(out)| == 300 && Capped(out)[..299] == out[..299] && Capped(out)[299] == '\U{2026}'
  {
  }

  /** So a text within the limit, with no secret and no blob, is shown as it is. */
  lemma CleanTextIsShown(text: string, shapes: Shapes, cuts: seq<Span>, out: string)
    requires AreCuts(text, shapes.long, [], cuts) && IsRedacted(text, shapes, cuts, out) && |text| <= 300
    requires forall s, p: nat | s in shapes.long + shapes.short :: !OccursAt(text, s, p)
    ensures Capped(out) == text
  {
    HeldMeans(text, shapes.long + shapes.short);
    CleanTextIsKept(text, shapes, cuts, out);
    CapKeeps(out);
  }

  /** How many characters of the text the cap leaves. */
  function KeptChars(out: string): nat {
    if |out| <= MAX_ERROR_TEXT_LENGTH then |out| else MAX_ERROR_TEXT_LENGTH - |TRUNCATION_MARKER|
  }

  /** Every secret spelled after the cap lies in what the cap left, inside one marker. */
  ghost predicate CappedShowsNoSecret(out: string, secrets: seq<string>, markers: seq<nat>) {
    forall s, p: nat | s in secrets && OccursAt(Capped(out), s, p) ::
      p + |s| <= KeptChars(out) && InsideAMarker(p, |s|, markers)
  }

  /** The text is over the limit, and what the cap leaves of it ends in all of the secret but the mark. */
  predicate MarkCompletes(out: string, s: string) {
    && |out| > MAX_ERROR_TEXT_LENGTH && 0 < |s| <= MAX_ERROR_TEXT_LENGTH
    && s[|s| - 1..] == TRUNCATION_MARKER
    && out[MAX_ERROR_TEXT_LENGTH - |s|..KeptChars(out)] == s[..|s| - 1]
  }

  /** The cap shows no secret exactly when the mark it puts on completes none. */
  lemma CapShowsNoSecretIff(out: string, secrets: seq<string>, markers: seq<nat>)
    requires NoneEmpty(secrets) && AllInsideMarkers(out, secrets, markers)
    ensures CappedShowsNoSecret(out, secrets, markers) <==> forall s | s in secrets :: !MarkCompletes(out, s)
  {
    forall s, p: nat | s in secrets
      ensures OccursAt(Capped(out), s, p) <==>
                || (p + |s| <= KeptChars(out) && OccursAt(out, s, p))
                || (MarkCompletes(out, s) && p + |s| == MAX_ERROR_TEXT_LENGTH)
    {
      OccursAfterCap(out, s, p);
    }
    if s :| s in secrets && MarkCompletes(out, s) {
      var p: nat := MAX_ERROR_TEXT_LENGTH - |s|;
      assert OccursAt(Capped(out), s, p);
    }
  }

  lemma OccursAfterCap(out: string, s: string, p: nat)
    requires s != ""
    ensures OccursAt(Capped(out), s, p) <==>
              || (p + |s| <= KeptChars(out) && OccursAt(out, s, p))
              || (MarkCompletes(out, s) && p + |s| == MAX_ERROR_TEXT_LENGTH)
  {
    if |out| > MAX_ERROR_TEXT_LENGTH {
      if p + |s| <= KeptChars(out) {
        assert Capped(out)[p..p + |s|] == out[p..p + |s|];
      } else if p + |s| == MAX_ERROR_TEXT_LENGTH {
        var kept := out[p..KeptChars(out)];
        assert Capped(out)[p..p + |s|] == kept + TRUNCATION_MARKER;
        assert s == s[..|s| - 1] + s[|s| - 1..];
        assert (kept + TRUNCATION_MARKER)[..|s| - 1] == kept
               && (kept + TRUNCATION_MARKER)[|s| - 1..] == TRUNCATION_MARKER;
      }
    }
  }

  /** What a caller can see beforehand: secrets that do not end in the mark survive the cap in every text. */
  lemma CapIsSafeForSecretsWithoutTheMark(out: string, secrets: seq<string>, markers: seq<nat>)
    requires NoneEmpty(secrets) && AllInsideMarkers(out, secrets, markers)
    requires forall s | s in secrets :: s[|s| - 1..] != TRUNCATION_MARKER
    ensures CappedShowsNoSecret(out, secrets, markers)
  {
    CapShowsNoSecretIff(out, secrets, markers);
  }

  lemma NeverWithoutItsLast(text: string, s: string)
    requires s != "" && s[|s| - 1] !in text
    ensures forall p: nat :: !OccursAt(text, s, p)
  {
    forall p: nat ensures !OccursAt(text, s, p) {
      if p + |s| <= |text| {
        assert text[p..p + |s|][|s| - 1] == text[p + |s| - 1];
      }
    }
  }

  /** A secret that ends in the mark: no scan finds it, and the cap then spells it out. */
  lemma TheMarkCompletesASecret()
    ensures exists text: string, shapes: Shapes, out: string, p: nat
              | IsRedacted(text, shapes, [], out) && shapes.long != [] ::
              && AreCuts(text, shapes.long, [], [])
              && OccursAt(Capped(out), shapes.long[0], p) && !OccursAt(out, shapes.long[0], p)
  {
    var secret := "abcdefg\U{2026}";
    var text := seq(292, _ => 'x') + "abcdefg" + "xx";
    var shapes := Shapes([secret], []);
    assert |text| == 301 && text[..299] == text[..292] + "abcdefg";
    NeverWithoutItsLast(text, secret);
    NothingDropped(text);
    assert text[0..] == text;
    assert AreCuts(text, shapes.long, [], []);
    assert !HoldsAny(text, shapes.short);
    assert IsRedacted(text, shapes, [], text);
    assert Capped(text)[292..300] == secret;
    assert OccursAt(Capped(text), shapes.long[0], 292);
  }
}
