/**
 * cleanErrorField: what of a token endpoint's refusal may be repeated. Echoes are looked for in the
 * raw text and in its charset-filtered view; each secret shape stands for the texts it matches.
 */
module OAuthRedaction {
  import opened Wrappers
  import opened Sequences
  import opened Spans
  import opened Splicing
  import opened Redaction

  /** The charset of the error fields in section 5.2 of RFC 6749. */
  predicate InErrorCharset(c: char) {
    '\U{20}' <= c <= '\U{21}' || '\U{23}' <= c <= '\U{5B}' || '\U{5D}' <= c <= '\U{7E}'
  }

  const ERROR_CHARSET: Charset := c => InErrorCharset(c)

  /** Between the raw places of the first and the last character of an echo in the filtered view. */
  ghost predicate InFilteredEcho(value: string, s: string, x: int)
    requires s != ""
  {
    var at := KeptAt(value, ERROR_CHARSET);
    exists f: nat :: f + |s| <= |at| && OccursAt(Drop(value, ERROR_CHARSET), s, f) && at[f] <= x <= at[f + |s| - 1]
  }

  ghost predicate InEchoOf(value: string, s: string, x: int)
    requires s != ""
  {
    InRawEcho(value, s, x) || InFilteredEcho(value, s, x)
  }

  ghost predicate InEcho(value: string, secrets: seq<string>, x: int)
    requires NoneEmpty(secrets)
  {
    exists s | s in secrets :: InEchoOf(value, s, x)
  }

  /** e is the raw span of some echo of s in the filtered view. */
  ghost predicate IsMappedEcho(value: string, s: string, e: Span)
    requires s != ""
  {
    var at := KeptAt(value, ERROR_CHARSET);
    exists f: nat | f + |s| <= |at| ::
      OccursAt(Drop(value, ERROR_CHARSET), s, f) && e == Span(at[f], at[f + |s| - 1] + 1)
  }

  function RawSpan(at: seq<nat>, e: Span): Span
    requires e.start < e.end <= |at|
  {
    Span(at[e.start], at[e.end - 1] + 1)
  }

  ghost predicate FoundIn(text: string, s: string, found: seq<Span>) {
    forall e: Span :: e in found <==> OccursAt(text, s, e.start) && e.end == e.start + |s|
  }

  /** Echoes of the filtered view, mapped back to raw offsets. */
  method MapBack(value: string, s: string, found: seq<Span>) returns (mapped: seq<Span>)
    requires s != "" && FoundIn(Drop(value, ERROR_CHARSET), s, found)
    ensures Within(mapped, |value|)
    ensures forall x: int :: Covers(mapped, x) <==> InFilteredEcho(value, s, x)
  {
    var at := KeptAt(value, ERROR_CHARSET);
    FilteredView(value, ERROR_CHARSET);
    FoundFits(Drop(value, ERROR_CHARSET), s, found);
    mapped := [];
    for i := 0 to |found|
      invariant |mapped| == i
      invariant forall j | 0 <= j < i :: mapped[j] == RawSpan(at, found[j])
    {
      mapped := mapped + [RawSpan(at, found[i])];
    }
    assert MapsTo(value, s, found, mapped);
    forall e | e in mapped ensures IsMappedEcho(value, s, e) && e.start < e.end <= |value| {
      MappedIsEcho(value, s, found, mapped, e);
    }
    forall e: Span | IsMappedEcho(value, s, e) ensures e in mapped {
      EchoIsMapped(value, s, found, mapped, e);
    }
    forall x: int ensures Covers(mapped, x) <==> InFilteredEcho(value, s, x) {
      FilteredCover(value, s, mapped, x);
    }
  }

  lemma FoundFits(text: string, s: string, found: seq<Span>)
    requires s != "" && FoundIn(text, s, found)
    ensures forall j | 0 <= j < |found| :: found[j].start < found[j].end <= |text|
  {
    forall j | 0 <= j < |found| ensures found[j].start < found[j].end <= |text| {
      assert found[j] in found;
    }
  }

  ghost predicate MapsTo(value: string, s: string, found: seq<Span>, mapped: seq<Span>)
    requires s != ""
  {
    var at := KeptAt(value, ERROR_CHARSET);
    && |mapped| == |found| && FoundIn(Drop(value, ERROR_CHARSET), s, found)
    && (forall j | 0 <= j < |found| :: found[j].start < found[j].end <= |at|)
    && (forall j | 0 <= j < |found| :: mapped[j] == RawSpan(at, found[j]))
  }

  lemma MappedIsEcho(value: string, s: string, found: seq<Span>, mapped: seq<Span>, e: Span)
    requires s != "" && MapsTo(value, s, found, mapped) && e in mapped
    ensures IsMappedEcho(value, s, e) && e.start < e.end <= |value|
  {
    var at := KeptAt(value, ERROR_CHARSET);
    FilteredView(value, ERROR_CHARSET);
    var j :| 0 <= j < |mapped| && mapped[j] == e;
    var f := found[j];
    assert f in found;
    assert f.start == f.end - 1 || at[f.start] < at[f.end - 1];
  }

  lemma EchoIsMapped(value: string, s: string, found: seq<Span>, mapped: seq<Span>, e: Span)
    requires s != "" && MapsTo(value, s, found, mapped) && IsMappedEcho(value, s, e)
    ensures e in mapped
  {
    var at := KeptAt(value, ERROR_CHARSET);
    var f: nat :| f + |s| <= |at| && OccursAt(Drop(value, ERROR_CHARSET), s, f)
                  && e == Span(at[f], at[f + |s| - 1] + 1);
    assert Span(f, f + |s|) in found;
    var j :| 0 <= j < |found| && found[j] == Span(f, f + |s|);
    assert mapped[j] == RawSpan(at, found[j]) == e;
  }

  method SecretEchoes(value: string, s: string) returns (echoes: seq<Span>)
    requires s != ""
    ensures Within(echoes, |value|)
    ensures forall x: int :: Covers(echoes, x) <==> InEchoOf(value, s, x)
  {
    var raw := EchoesOf(value, s);
    var found := EchoesOf(Drop(value, ERROR_CHARSET), s);
    var mapped := MapBack(value, s, found);
    echoes := raw + mapped;
    forall x: int ensures Covers(echoes, x) <==> InEchoOf(value, s, x) {
      RawCover(value, s, raw, x);
      CoversConcat(raw, mapped, x);
    }
  }

  lemma FilteredCover(value: string, s: string, mapped: seq<Span>, x: int)
    requires s != "" && forall e: Span :: e in mapped <==> IsMappedEcho(value, s, e)
    ensures Covers(mapped, x) <==> InFilteredEcho(value, s, x)
  {
    var at := KeptAt(value, ERROR_CHARSET);
    if InFilteredEcho(value, s, x) {
      var f: nat :| f + |s| <= |at| && OccursAt(Drop(value, ERROR_CHARSET), s, f) && at[f] <= x <= at[f + |s| - 1];
      var e := Span(at[f], at[f + |s| - 1] + 1);
      assert IsMappedEcho(value, s, e);
      assert e in mapped;
    }
  }

  /** The cuts a text needs, and nothing else: one set of spans, whatever order the echoes were found in. */
  ghost predicate AreCuts(value: string, secrets: seq<string>, cuts: seq<Span>)
    requires NoneEmpty(secrets)
  {
    CutsWithin(cuts, 0, |value|) && forall x: int :: Covers(cuts, x) <==> InEcho(value, secrets, x)
  }

  method FindCuts(value: string, secrets: seq<string>) returns (cuts: seq<Span>)
    requires NoneEmpty(secrets)
    ensures AreCuts(value, secrets, cuts)
  {
    var echoes: seq<Span> := [];
    for i := 0 to |secrets|
      invariant Within(echoes, |value|) && NoneEmpty(secrets[..i])
      invariant forall x: int :: Covers(echoes, x) <==> InEcho(value, secrets[..i], x)
    {
      assert secrets[i] in secrets;
      var more := SecretEchoes(value, secrets[i]);
      assert secrets[..i + 1] == secrets[..i] + [secrets[i]];
      forall x: int ensures Covers(echoes + more, x) <==> InEcho(value, secrets[..i + 1], x) {
        CoversConcat(echoes, more, x);
        EchoOfOneMore(value, secrets[..i], secrets[i], x);
      }
      echoes := echoes + more;
    }
    assert secrets[..|secrets|] == secrets;
    cuts := MergeSpans(echoes);
    CoveredWithin(cuts, echoes, |value|);
  }

  lemma EchoOfOneMore(value: string, secrets: seq<string>, s: string, x: int)
    requires NoneEmpty(secrets) && s != ""
    ensures InEcho(value, secrets + [s], x) <==> InEcho(value, secrets, x) || InEchoOf(value, s, x)
  {
    assert s in secrets + [s];
    if InEcho(value, secrets, x) {
      var t :| t in secrets && InEchoOf(value, t, x);
      assert t in secrets + [s];
    }
  }

  function Take(text: string, max: nat): string {
    if |text| <= max then text else text[..max]
  }

  /**
   * The field shown, given the cuts: nothing when a short shape occurs in either view, or when a secret
   * is spelled across a marker.
   */
  ghost predicate IsCleaned(value: string, max: nat, shapes: Shapes, cuts: seq<Span>, field: string)
    requires CutsWithin(cuts, 0, |value|)
  {
    var out, markers := Splice(value, ERROR_CHARSET, cuts, 0), MarkersFrom(value, ERROR_CHARSET, cuts, 0, 0);
    if HoldsAny(value, shapes.short) || HoldsAny(Drop(value, ERROR_CHARSET), shapes.short)
       || !AllInsideMarkers(out, shapes.long + shapes.short, markers)
    then field == ""
    else field == Trim(Take(out, max))
  }

  method CleanErrorField(value: Option<string>, max: nat, shapes: Shapes) returns (field: string, ghost cuts: seq<Span>)
    requires NoneEmpty(shapes.long) && NoneEmpty(shapes.short)
    ensures value.None? ==> field == ""
    ensures value.Some? ==> AreCuts(value.value, shapes.long, cuts) && IsCleaned(value.value, max, shapes, cuts, field)
  {
    if value.None? {
      return "", [];
    }
    var text := value.value;
    var found := FindCuts(text, shapes.long);
    cuts := found;
    if HoldsAny(text, shapes.short) || HoldsAny(Drop(text, ERROR_CHARSET), shapes.short) {
      return "", cuts;
    }
    var out, markers := TextAroundCuts(text, ERROR_CHARSET, found);
    var ok := SpelledOnlyInsideMarkers(out, shapes.long + shapes.short, markers);
    field := if ok then Trim(Take(out, max)) else "";
  }

  // ------------------------------------------------------------------ what that means

  lemma PartOfFirst(text: string, n: nat, lo: nat, hi: nat)
    requires lo <= hi <= n <= |text|
    ensures text[..n][lo..hi] == text[lo..hi] && text[..n][..lo] == text[..lo] && text[..n][hi..] == text[hi..n]
  {
  }

  predicate AllBlank(s: string) {
    forall c | c in s :: c == ' '
  }

  /** Of the first `max` characters the field is all but the blanks at their ends. */
  predicate IsShownOf(out: string, max: nat, field: string, lo: nat, hi: nat) {
    var n := if |out| <= max then |out| else max;
    && lo <= hi <= n && field == out[lo..hi]
    && AllBlank(out[..lo]) && AllBlank(out[hi..n])
    && (field != "" ==> field[0] != ' ' && field[|field| - 1] != ' ')
  }

  /** The blank is the charset's only white space. */
  predicate BlanksOnly(text: string) {
    forall c | c in text :: IsSpace(c) ==> c == ' '
  }

  lemma TrimmedIsPart(text: string, max: nat) returns (lo: nat, hi: nat)
    requires BlanksOnly(text)
    ensures IsShownOf(text, max, Trim(Take(text, max)), lo, hi)
  {
    var head := Take(text, max);
    lo, hi := TrimMeans(head);
    PartOfFirst(text, |head|, lo, hi);
    assert text[..|text|] == text;
    forall c | c in head[..lo] || c in head[hi..] ensures c == ' ' {
      assert c in text;
    }
  }

  lemma SpliceHasBlanksOnly(value: string, cuts: seq<Span>)
    requires CutsWithin(cuts, 0, |value|)
    ensures BlanksOnly(Splice(value, ERROR_CHARSET, cuts, 0))
  {
    var out, os := Splice(value, ERROR_CHARSET, cuts, 0), Origins(value, ERROR_CHARSET, cuts, 0);
    SpliceTraced(value, ERROR_CHARSET, cuts, 0);
    forall p | 0 <= p < |out| && IsSpace(out[p]) ensures out[p] == ' ' {
      assert os[p].From? || os[p].Inserted?;
    }
  }

  /**
   * A field that is not withheld is the spliced text up to the limit without the white space at its ends;
   * it is withheld exactly for a short shape in either view or a secret not inside one marker.
   */
  lemma FieldIsTheTrimmedStart(value: string, max: nat, shapes: Shapes, cuts: seq<Span>, field: string)
    returns (lo: nat, hi: nat)
    requires NoneEmpty(shapes.long) && NoneEmpty(shapes.short)
    requires AreCuts(value, shapes.long, cuts) && IsCleaned(value, max, shapes, cuts, field)
    ensures var out, markers := Splice(value, ERROR_CHARSET, cuts, 0), MarkersFrom(value, ERROR_CHARSET, cuts, 0, 0);
            if (exists s, p: nat | s in shapes.short ::
                  OccursAt(value, s, p) || OccursAt(Drop(value, ERROR_CHARSET), s, p))
               || !AllInsideMarkers(out, shapes.long + shapes.short, markers)
            then field == ""
            else IsShownOf(out, max, field, lo, hi)
  {
    HeldMeans(value, shapes.short);
    HeldMeans(Drop(value, ERROR_CHARSET), shapes.short);
    SpliceHasBlanksOnly(value, cuts);
    lo, hi := TrimmedIsPart(Splice(value, ERROR_CHARSET, cuts, 0), max);
  }

  /** A value of the charset within the limit, with no echo and no blank at its ends, comes back as it is. */
  lemma CleanValueComesBack(value: string, max: nat, shapes: Shapes, cuts: seq<Span>, field: string)
    requires NoneEmpty(shapes.long) && NoneEmpty(shapes.short)
    requires AreCuts(value, shapes.long, cuts) && IsCleaned(value, max, shapes, cuts, field)
    requires |value| <= max && forall k | 0 <= k < |value| :: InErrorCharset(value[k])
    requires value != "" ==> value[0] != ' ' && value[|value| - 1] != ' '
    requires forall s, p: nat | s in shapes.long + shapes.short :: !OccursAt(value, s, p)
    ensures field == value
  {
    AllKept(value);
    HeldMeans(value, shapes.long + shapes.short);
    CleanTextIsKept(value, max, shapes, cuts, field);
    var lo, hi := TrimmedIsPart(value, max);
    BlanksReachTheEnds(value, lo, hi);
  }

  lemma BlanksReachTheEnds(s: string, lo: nat, hi: nat)
    requires lo <= hi <= |s| && AllBlank(s[..lo]) && AllBlank(s[hi..|s|])
    ensures lo > 0 ==> s[0] == ' '
    ensures hi < |s| ==> s[|s| - 1] == ' '
  {
    if lo > 0 {
      assert s[0] in s[..lo];
    }
    if hi < |s| {
      assert s[|s| - 1] in s[hi..|s|];
    }
  }

  lemma {:induction false} AllKept(value: string)
    requires forall k | 0 <= k < |value| :: InErrorCharset(value[k])
    ensures Drop(value, ERROR_CHARSET) == value
  {
    if value != "" {
      AllKept(value[..|value| - 1]);
      assert value == value[..|value| - 1] + [value[|value| - 1]];
    }
  }

  /** The printable ASCII characters but the quote and the backslash. */
  lemma CharsetIsPrintable(c: char)
    ensures InErrorCharset(c) <==> ' ' <= c <= '~' && c != '"' && c != '\\'
  {
  }

  /**
   * After the slice and the trim the field is a part of the spliced text, and every secret it spells
   * lies inside one inserted marker.
   */
  lemma FieldShowsNoSecret(value: string, max: nat, shapes: Shapes, cuts: seq<Span>, field: string)
    returns (lo: nat, hi: nat)
    requires NoneEmpty(shapes.long) && NoneEmpty(shapes.short)
    requires AreCuts(value, shapes.long, cuts) && IsCleaned(value, max, shapes, cuts, field)
    ensures lo <= hi <= |Splice(value, ERROR_CHARSET, cuts, 0)|
            && field == Splice(value, ERROR_CHARSET, cuts, 0)[lo..hi]
    ensures ShowsNoSecret(field, lo, shapes.long + shapes.short,
                          MarkersFrom(value, ERROR_CHARSET, cuts, 0, 0), Origins(value, ERROR_CHARSET, cuts, 0))
  {
    var out := Splice(value, ERROR_CHARSET, cuts, 0);
    if field == "" {
      lo, hi := 0, 0;
    } else {
      SpliceHasBlanksOnly(value, cuts);
      lo, hi := TrimmedIsPart(out, max);
      assert lo <= hi <= |out|;
      PartShowsNoSecret(value, ERROR_CHARSET, cuts, shapes.long + shapes.short, lo, hi);
    }
  }

  /**
   * What is cut, occurrence by occurrence: all of each one of a secret in the raw text, all of the raw text
   * from the first to the last character of each one in the filtered view, and nothing else.
   */
  lemma CutsAreOccurrences(value: string, shapes: Shapes, cuts: seq<Span>)
    requires NoneEmpty(shapes.long) && AreCuts(value, shapes.long, cuts)
    ensures forall s, p: nat, x: int | s in shapes.long && OccursAt(value, s, p) && p <= x < p + |s| :: Covers(cuts, x)
    ensures var view, at := Drop(value, ERROR_CHARSET), KeptAt(value, ERROR_CHARSET);
            forall s, f: nat, x: int | s in shapes.long && f + |s| <= |at| && OccursAt(view, s, f)
                                       && at[f] <= x <= at[f + |s| - 1] :: Covers(cuts, x)
    ensures var view, at := Drop(value, ERROR_CHARSET), KeptAt(value, ERROR_CHARSET);
            forall x: int | Covers(cuts, x) ::
              || (exists s, p: nat | s in shapes.long :: OccursAt(value, s, p) && p <= x < p + |s|)
              || (exists s, f: nat | s in shapes.long && f + |s| <= |at| ::
                    OccursAt(view, s, f) && at[f] <= x <= at[f + |s| - 1])
  {
    var view, at := Drop(value, ERROR_CHARSET), KeptAt(value, ERROR_CHARSET);
    forall s, p: nat, x: int | s in shapes.long && OccursAt(value, s, p) && p <= x < p + |s| ensures Covers(cuts, x) {
      assert InEchoOf(value, s, x);
    }
    forall s, f: nat, x: int | s in shapes.long && f + |s| <= |at| && OccursAt(view, s, f)
                               && at[f] <= x <= at[f + |s| - 1]
      ensures Covers(cuts, x)
    {
      assert InFilteredEcho(value, s, x);
      assert InEchoOf(value, s, x);
    }
  }

  /**
   * The spliced text the field is a part of holds, in order, exactly the characters of the charset
   * outside every echo.
   */
  lemma OnlyEchoesAreCut(value: string, shapes: Shapes, cuts: seq<Span>)
    requires NoneEmpty(shapes.long) && AreCuts(value, shapes.long, cuts)
    ensures var out, os := Splice(value, ERROR_CHARSET, cuts, 0), Origins(value, ERROR_CHARSET, cuts, 0);
            && InTextOrder(os)
            && forall i: nat | i < |value| ::
                 Stands(value, out, os, i) <==> InErrorCharset(value[i]) && !InEcho(value, shapes.long, i)
  {
    StandsExactlyUncut(value, ERROR_CHARSET, cuts);
  }

  /**
   * Each echo of a long secret in the filtered view starts inside a cut; a text without a short one has
   * no echo of it to cut.
   */
  lemma EchoesAreCut(value: string, shapes: Shapes, cuts: seq<Span>, s: string)
    requires NoneEmpty(shapes.long) && NoneEmpty(shapes.short) && AreCuts(value, shapes.long, cuts)
    requires !HoldsAny(Drop(value, ERROR_CHARSET), shapes.short) && s in shapes.long + shapes.short
    ensures s != "" && FilteredEchoesCut(value, ERROR_CHARSET, cuts, s)
  {
    FilteredView(value, ERROR_CHARSET);
    var at := KeptAt(value, ERROR_CHARSET);
    NeverOccurs(Drop(value, ERROR_CHARSET), shapes.short);
    if s in shapes.long {
      forall f | 0 <= f < |at| && OccursAt(Drop(value, ERROR_CHARSET), s, f) ensures Covers(cuts, at[f]) {
        assert f == f + |s| - 1 || at[f] < at[f + |s| - 1];
        assert InFilteredEcho(value, s, at[f]);
        assert InEchoOf(value, s, at[f]);
      }
    }
  }

  /** A field without short shapes is dropped exactly when a secret is spelled across a marker. */
  lemma DroppedOnlyAcrossMarkers(value: string, max: nat, shapes: Shapes, cuts: seq<Span>, field: string)
    requires NoneEmpty(shapes.long) && NoneEmpty(shapes.short)
    requires AreCuts(value, shapes.long, cuts) && IsCleaned(value, max, shapes, cuts, field)
    requires !HoldsAny(value, shapes.short) && !HoldsAny(Drop(value, ERROR_CHARSET), shapes.short)
    ensures var out, ms := Splice(value, ERROR_CHARSET, cuts, 0), MarkersFrom(value, ERROR_CHARSET, cuts, 0, 0);
            field == if SpelledAcrossAMarker(out, shapes.long + shapes.short, ms) then "" else Trim(Take(out, max))
  {
    forall s | s in shapes.long + shapes.short ensures s != "" && FilteredEchoesCut(value, ERROR_CHARSET, cuts, s) {
      EchoesAreCut(value, shapes, cuts, s);
    }
    WithheldOnlyAcrossMarkers(value, ERROR_CHARSET, cuts, shapes.long + shapes.short);
  }

  /** A refusal that echoes nothing is repeated whole, charset and length aside. */
  lemma CleanTextIsKept(value: string, max: nat, shapes: Shapes, cuts: seq<Span>, field: string)
    requires NoneEmpty(shapes.long) && NoneEmpty(shapes.short)
    requires AreCuts(value, shapes.long, cuts) && IsCleaned(value, max, shapes, cuts, field)
    requires !HoldsAny(value, shapes.long + shapes.short)
             && !HoldsAny(Drop(value, ERROR_CHARSET), shapes.long + shapes.short)
    ensures field == Trim(Take(Drop(value, ERROR_CHARSET), max))
  {
    NothingToCut(value, shapes, cuts);
    assert value[0..] == value;
    NothingHeld(value, shapes);
    NothingHeld(Drop(value, ERROR_CHARSET), shapes);
    assert Splice(value, ERROR_CHARSET, cuts, 0) == Drop(value, ERROR_CHARSET);
    NeverOccurs(Drop(value, ERROR_CHARSET), shapes.long + shapes.short);
  }

  lemma NothingToCut(value: string, shapes: Shapes, cuts: seq<Span>)
    requires NoneEmpty(shapes.long) && AreCuts(value, shapes.long, cuts)
    requires !HoldsAny(value, shapes.long + shapes.short)
             && !HoldsAny(Drop(value, ERROR_CHARSET), shapes.long + shapes.short)
    ensures cuts == []
  {
    NeverOccurs(value, shapes.long + shapes.short);
    NeverOccurs(Drop(value, ERROR_CHARSET), shapes.long + shapes.short);
    forall s, x: int | s in shapes.long ensures !InEchoOf(value, s, x) {
      assert s in shapes.long + shapes.short;
    }
    FirstSpan(cuts);
  }

  // ------------------------------------------------------------------ pieces of a secret

  const SECRET_SHAPE_MIN_CHARS: nat := 8

  function Width(secret: string): nat {
    if |secret| < SECRET_SHAPE_MIN_CHARS then |secret| else SECRET_SHAPE_MIN_CHARS
  }

  /** The 8-character windows of a secret, or all of a shorter one. */
  method PiecesOf(secret: string) returns (pieces: seq<string>)
    ensures secret == "" ==> pieces == []
    ensures secret != "" ==>
              forall w :: w in pieces <==> |w| == Width(secret) && exists i: nat :: OccursAt(secret, w, i)
  {
    pieces := [];
    if secret == "" {
      return;
    }
    var width := Width(secret);
    for i := 0 to |secret| - width + 1
      invariant |pieces| == i && forall j | 0 <= j < i :: pieces[j] == secret[j..j + width]
    {
      pieces := pieces + [secret[i..i + width]];
    }
    forall w | w in pieces ensures |w| == width && exists i: nat :: OccursAt(secret, w, i) {
      var j :| 0 <= j < |pieces| && pieces[j] == w;
      assert OccursAt(secret, w, j);
    }
    forall w, i: nat | |w| == width && OccursAt(secret, w, i) ensures w in pieces {
      assert pieces[i] == w;
    }
  }

  /** A stretch of the secret, whole if the secret is short, that the text spells too. */
  ghost predicate SpellsAPieceOf(text: string, secret: string) {
    exists w, i: nat, p: nat | OccursAt(secret, w, i) && OccursAt(text, w, p) :: w != "" && (|w| >= 8 || w == secret)
  }

  method HoldsPieceOf(text: string, secrets: seq<string>) returns (held: bool)
    ensures held <==> exists s | s in secrets :: SpellsAPieceOf(text, s)
  {
    for k := 0 to |secrets|
      invariant forall s | s in secrets[..k] :: !SpellsAPieceOf(text, s)
    {
      var pieces := PiecesOf(secrets[k]);
      for j := 0 to |pieces|
        invariant forall l | 0 <= l < j :: !Holds(text, pieces[l])
      {
        if Holds(text, pieces[j]) {
          PieceSpelled(text, secrets[k], pieces[j]);
          return true;
        }
      }
      NoPieceSpelled(text, secrets[k], pieces);
    }
    assert secrets[..|secrets|] == secrets;
    held := false;
  }

  lemma PieceSpelled(text: string, secret: string, w: string)
    requires secret != "" && |w| == Width(secret) && Holds(text, w) && exists i: nat :: OccursAt(secret, w, i)
    ensures SpellsAPieceOf(text, secret)
  {
    var i: nat :| OccursAt(secret, w, i);
    assert |w| == |secret| ==> secret[i..i + |w|] == secret;
  }

  /** A longer stretch the two share holds a window they share. */
  lemma NoPieceSpelled(text: string, secret: string, pieces: seq<string>)
    requires secret == ""
             || forall w :: w in pieces <==> |w| == Width(secret) && exists i: nat :: OccursAt(secret, w, i)
    requires forall w | w in pieces :: !Holds(text, w)
    ensures !SpellsAPieceOf(text, secret)
  {
    forall w, i: nat, p: nat | OccursAt(secret, w, i) && OccursAt(text, w, p) && w != ""
      ensures |w| < 8 && w != secret
    {
      if |w| >= Width(secret) {
        var window := w[..Width(secret)];
        assert secret[i..i + |w|][..Width(secret)] == secret[i..i + Width(secret)];
        assert text[p..p + |w|][..Width(secret)] == text[p..p + Width(secret)];
        assert OccursAt(secret, window, i) && OccursAt(text, window, p);
        assert window in pieces && Holds(text, window);
      }
    }
  }
}
