/**
 * A text with some spans cut out and one marker put in for each, the rest filtered through a
 * charset. Every character of the result is traced to where it came from.
 */
module Splicing {
  import opened Spans

  const REDACTED: string := "[redacted]"

  type Charset = char -> bool

  predicate OccursAt(text: string, s: string, p: int) {
    0 <= p && p + |s| <= |text| && text[p..p + |s|] == s
  }

  /** The charset filter on a string. */
  function Drop(text: string, keep: Charset): string {
    if text == "" then ""
    else Drop(text[..|text| - 1], keep) + (if keep(text[|text| - 1]) then [text[|text| - 1]] else "")
  }

  /** The offsets the filter keeps, in order. */
  function KeptIn(text: string, keep: Charset, from: nat, upto: nat): seq<nat>
    requires from <= upto <= |text|
    decreases upto
  {
    if from == upto then [] else KeptIn(text, keep, from, upto - 1) + (if keep(text[upto - 1]) then [upto - 1] else [])
  }

  function KeptAt(text: string, keep: Charset): seq<nat> {
    KeptIn(text, keep, 0, |text|)
  }

  predicate Ascending(r: seq<nat>) {
    forall j, k | 0 <= j < k < |r| :: r[j] < r[k]
  }

  /** r lists, in order, exactly the kept offsets in [from, upto). */
  predicate ListsKept(text: string, keep: Charset, from: nat, upto: nat, r: seq<nat>)
    requires upto <= |text|
  {
    && Ascending(r)
    && (forall k | 0 <= k < |r| :: from <= r[k] < upto && keep(text[r[k]]))
    && (forall i | from <= i < upto && keep(text[i]) :: i in r)
  }

  lemma {:induction false} KeptInFacts(text: string, keep: Charset, from: nat, upto: nat)
    requires from <= upto <= |text|
    ensures ListsKept(text, keep, from, upto, KeptIn(text, keep, from, upto))
    decreases upto
  {
    if from < upto {
      KeptInFacts(text, keep, from, upto - 1);
      ListOneMore(text, keep, from, upto, KeptIn(text, keep, from, upto - 1));
    }
  }

  lemma ListOneMore(text: string, keep: Charset, from: nat, upto: nat, r: seq<nat>)
    requires from < upto <= |text| && ListsKept(text, keep, from, upto - 1, r)
    ensures ListsKept(text, keep, from, upto, r + (if keep(text[upto - 1]) then [upto - 1] else []))
  {
    var r' := r + (if keep(text[upto - 1]) then [upto - 1] else []);
    forall i | from <= i < upto && keep(text[i]) ensures i in r' {
      if i < upto - 1 {
        assert i in r;
      }
    }
  }

  lemma {:induction false} DropIsKept(text: string, keep: Charset, from: nat, upto: nat)
    requires from <= upto <= |text|
    ensures var r := KeptIn(text, keep, from, upto);
            && |Drop(text[from..upto], keep)| == |r|
            && (forall k | 0 <= k < |r| :: r[k] < |text| && Drop(text[from..upto], keep)[k] == text[r[k]])
    decreases upto
  {
    if from < upto {
      DropIsKept(text, keep, from, upto - 1);
      assert text[from..upto][..upto - from - 1] == text[from..upto - 1];
    }
  }

  /** The filtered view of a text, and where its characters stand in the raw one. */
  lemma FilteredView(text: string, keep: Charset)
    ensures var at := KeptAt(text, keep);
            && ListsKept(text, keep, 0, |text|, at)
            && |Drop(text, keep)| == |at|
            && (forall k | 0 <= k < |at| :: at[k] < |text| && Drop(text, keep)[k] == text[at[k]])
  {
    KeptInFacts(text, keep, 0, |text|);
    DropIsKept(text, keep, 0, |text|);
    assert text[0..|text|] == text;
  }

  // ------------------------------------------------------------------ the spliced text

  ghost predicate CutsWithin(cuts: seq<Span>, from: nat, upto: nat) {
    NormalForm(cuts) && from <= upto && (forall s | s in cuts :: from <= s.start && s.end <= upto)
  }

  function Splice(text: string, keep: Charset, cuts: seq<Span>, from: nat): string
    requires CutsWithin(cuts, from, |text|)
    decreases |cuts|
  {
    if cuts == [] then Drop(text[from..], keep)
    else
      RestWithin(cuts, from, |text|);
      Drop(text[from..cuts[0].start], keep) + REDACTED + Splice(text, keep, cuts[1..], cuts[0].end)
  }

  function MarkersFrom(text: string, keep: Charset, cuts: seq<Span>, from: nat, at: nat): seq<nat>
    requires CutsWithin(cuts, from, |text|)
    decreases |cuts|
  {
    if cuts == [] then []
    else
      RestWithin(cuts, from, |text|);
      var marker := at + |Drop(text[from..cuts[0].start], keep)|;
      [marker] + MarkersFrom(text, keep, cuts[1..], cuts[0].end, marker + |REDACTED|)
  }

  lemma RestWithin(cuts: seq<Span>, from: nat, upto: nat)
    requires CutsWithin(cuts, from, upto) && cuts != []
    ensures CutsWithin(cuts[1..], cuts[0].end, upto)
  {
  }

  /** Where a character of the result comes from: an offset of the text, or a place in a marker. */
  datatype Origin = From(at: nat) | Inserted(nth: nat)

  function Kept(at: seq<nat>): seq<Origin> {
    seq(|at|, k requires 0 <= k < |at| => From(at[k]))
  }

  function Marker(): seq<Origin> {
    seq(|REDACTED|, (k: nat) => Inserted(k))
  }

  function Origins(text: string, keep: Charset, cuts: seq<Span>, from: nat): seq<Origin>
    requires CutsWithin(cuts, from, |text|)
    decreases |cuts|
  {
    if cuts == [] then Kept(KeptIn(text, keep, from, |text|))
    else
      RestWithin(cuts, from, |text|);
      Kept(KeptIn(text, keep, from, cuts[0].start)) + Marker()
      + Origins(text, keep, cuts[1..], cuts[0].end)
  }

  /** A kept character is the text's own, inside the charset and outside every cut; a marker's is the marker's. */
  ghost predicate Traced(text: string, keep: Charset, cuts: seq<Span>, from: nat, out: string, os: seq<Origin>) {
    && |os| == |out|
    && (forall p | 0 <= p < |os| && os[p].From? ::
          from <= os[p].at < |text| && out[p] == text[os[p].at] && keep(out[p]) && !Covers(cuts, os[p].at))
    && (forall p | 0 <= p < |os| && os[p].Inserted? :: os[p].nth < |REDACTED| && out[p] == REDACTED[os[p].nth])
  }

  lemma TracedAppend(text: string, keep: Charset, cuts: seq<Span>, from: nat, a: string, x: seq<Origin>, b: string,
                     y: seq<Origin>)
    requires Traced(text, keep, cuts, from, a, x) && Traced(text, keep, cuts, from, b, y)
    ensures Traced(text, keep, cuts, from, a + b, x + y)
  {
  }

  /** The text before the next cut. */
  lemma PieceTraced(text: string, keep: Charset, cuts: seq<Span>, from: nat, upto: nat)
    requires CutsWithin(cuts, from, |text|) && from <= upto <= |text| && (cuts != [] ==> upto == cuts[0].start)
    ensures Traced(text, keep, cuts, from, Drop(text[from..upto], keep), Kept(KeptIn(text, keep, from, upto)))
  {
    KeptInFacts(text, keep, from, upto);
    DropIsKept(text, keep, from, upto);
    FirstSpan(cuts);
  }

  lemma RestTraced(text: string, keep: Charset, cuts: seq<Span>, from: nat, out: string, os: seq<Origin>)
    requires CutsWithin(cuts, from, |text|) && cuts != []
    requires Traced(text, keep, cuts[1..], cuts[0].end, out, os)
    ensures Traced(text, keep, cuts, from, out, os)
  {
    forall p | 0 <= p < |os| && os[p].From? ensures !Covers(cuts, os[p].at) {
      CoversRest(cuts, os[p].at);
      FirstSpan(cuts);
    }
  }

  lemma {:induction false} SpliceTraced(text: string, keep: Charset, cuts: seq<Span>, from: nat)
    requires CutsWithin(cuts, from, |text|)
    ensures Traced(text, keep, cuts, from, Splice(text, keep, cuts, from), Origins(text, keep, cuts, from))
    decreases |cuts|
  {
    if cuts == [] {
      PieceTraced(text, keep, cuts, from, |text|);
      assert text[from..|text|] == text[from..];
    } else {
      RestWithin(cuts, from, |text|);
      var piece, kept := Drop(text[from..cuts[0].start], keep), Kept(KeptIn(text, keep, from, cuts[0].start));
      PieceTraced(text, keep, cuts, from, cuts[0].start);
      TracedAppend(text, keep, cuts, from, piece, kept, REDACTED, Marker());
      var rest, os := Splice(text, keep, cuts[1..], cuts[0].end), Origins(text, keep, cuts[1..], cuts[0].end);
      SpliceTraced(text, keep, cuts[1..], cuts[0].end);
      RestTraced(text, keep, cuts, from, rest, os);
      TracedAppend(text, keep, cuts, from, piece + REDACTED, kept + Marker(), rest, os);
    }
  }

  /** Two kept characters in a row, with no marker between them, are neighbours in the filtered view. */
  ghost predicate InStep(text: string, keep: Charset, a: Origin, b: Origin) {
    a.From? && b.From? ==> a.at < b.at && forall i | a.at < i < b.at && i < |text| :: !keep(text[i])
  }

  ghost predicate AllInStep(text: string, keep: Charset, os: seq<Origin>) {
    forall p, q | 0 <= p < |os| && 0 <= q < |os| && q == p + 1 :: InStep(text, keep, os[p], os[q])
  }

  lemma {:induction false} OriginsInStep(text: string, keep: Charset, cuts: seq<Span>, from: nat)
    requires CutsWithin(cuts, from, |text|)
    ensures AllInStep(text, keep, Origins(text, keep, cuts, from))
    decreases |cuts|
  {
    if cuts == [] {
      KeptInStep(text, keep, from, |text|);
    } else {
      RestWithin(cuts, from, |text|);
      KeptInStep(text, keep, from, cuts[0].start);
      OriginsInStep(text, keep, cuts[1..], cuts[0].end);
      InStepAcrossMarker(text, keep, Kept(KeptIn(text, keep, from, cuts[0].start)),
                         Origins(text, keep, cuts[1..], cuts[0].end));
    }
  }

  lemma InStepAcrossMarker(text: string, keep: Charset, a: seq<Origin>, b: seq<Origin>)
    requires AllInStep(text, keep, a) && AllInStep(text, keep, b)
    ensures AllInStep(text, keep, a + Marker() + b)
  {
  }

  lemma KeptInStep(text: string, keep: Charset, from: nat, upto: nat)
    requires from <= upto <= |text|
    ensures AllInStep(text, keep, Kept(KeptIn(text, keep, from, upto)))
  {
    KeptInFacts(text, keep, from, upto);
    var r := KeptIn(text, keep, from, upto);
    forall p, q, i | 0 <= p < |r| && 0 <= q < |r| && q == p + 1 && r[p] < i < r[q]
      ensures i < |text| && !keep(text[i])
    {
      NoneBetween(r, p, i);
      assert from <= r[p] && r[q] < upto;
    }
  }

  lemma NoneBetween(r: seq<nat>, p: nat, i: nat)
    requires Ascending(r)
    requires p + 1 < |r| && r[p] < i < r[p + 1]
    ensures i !in r
  {
    forall j | 0 <= j < |r| ensures r[j] != i {
      if j > p + 1 {
        assert r[p + 1] < r[j];
      }
    }
  }

  // ------------------------------------------------------------------ no echo survives a cut

  /** Every occurrence of a secret in the filtered view begins inside a cut. */
  ghost predicate FilteredEchoesCut(text: string, keep: Charset, cuts: seq<Span>, secret: string) {
    var at := KeptAt(text, keep);
    forall f | 0 <= f < |at| && OccursAt(Drop(text, keep), secret, f) :: Covers(cuts, at[f])
  }

  /**
   * A secret spelled by the result reaches into a marker: the text either side of a cut can spell
   * one with the marker between, but no stretch of kept text can.
   */
  lemma EchoReachesAMarker(text: string, keep: Charset, cuts: seq<Span>, secret: string, p: nat)
    requires CutsWithin(cuts, 0, |text|) && secret != "" && FilteredEchoesCut(text, keep, cuts, secret)
    requires OccursAt(Splice(text, keep, cuts, 0), secret, p)
    ensures |Origins(text, keep, cuts, 0)| == |Splice(text, keep, cuts, 0)|
    ensures exists k | p <= k < p + |secret| :: Origins(text, keep, cuts, 0)[k].Inserted?
  {
    SpliceTraced(text, keep, cuts, 0);
    var os := Origins(text, keep, cuts, 0);
    if forall k | p <= k < p + |secret| :: os[k].From? {
      var f := KeptStretchIsAnEcho(text, keep, cuts, secret, p);
    }
  }

  lemma KeptStretchIsAnEcho(text: string, keep: Charset, cuts: seq<Span>, secret: string, p: nat) returns (f: nat)
    requires CutsWithin(cuts, 0, |text|) && secret != "" && OccursAt(Splice(text, keep, cuts, 0), secret, p)
    requires |Origins(text, keep, cuts, 0)| == |Splice(text, keep, cuts, 0)|
    requires forall k | p <= k < p + |secret| :: Origins(text, keep, cuts, 0)[k].From?
    ensures var at, os := KeptAt(text, keep), Origins(text, keep, cuts, 0);
            && f < |at| && at[f] == os[p].at && !Covers(cuts, at[f])
            && OccursAt(Drop(text, keep), secret, f)
  {
    f := KeptPlace(text, keep, cuts, p);
    KeptRunIsFiltered(text, keep, cuts, p, |secret|, f);
    KeptRunText(text, keep, cuts, p, |secret|, f);
  }

  lemma KeptPlace(text: string, keep: Charset, cuts: seq<Span>, p: nat) returns (f: nat)
    requires CutsWithin(cuts, 0, |text|) && p < |Origins(text, keep, cuts, 0)| && Origins(text, keep, cuts, 0)[p].From?
    ensures var at := KeptAt(text, keep);
            f < |at| && at[f] == Origins(text, keep, cuts, 0)[p].at && !Covers(cuts, at[f])
  {
    SpliceTraced(text, keep, cuts, 0);
    FilteredView(text, keep);
    f :| f < |KeptAt(text, keep)| && KeptAt(text, keep)[f] == Origins(text, keep, cuts, 0)[p].at;
  }

  lemma KeptRunText(text: string, keep: Charset, cuts: seq<Span>, p: nat, n: nat, f: nat)
    requires CutsWithin(cuts, 0, |text|) && f + n <= |KeptAt(text, keep)| && p + n <= |Splice(text, keep, cuts, 0)|
    requires var os, at := Origins(text, keep, cuts, 0), KeptAt(text, keep);
             && |os| == |Splice(text, keep, cuts, 0)|
             && forall j, k | p <= k < p + n && j == k - p + f :: os[k] == From(at[j])
    ensures f + n <= |Drop(text, keep)| && Drop(text, keep)[f..f + n] == Splice(text, keep, cuts, 0)[p..p + n]
  {
    var out, os, at := Splice(text, keep, cuts, 0), Origins(text, keep, cuts, 0), KeptAt(text, keep);
    SpliceTraced(text, keep, cuts, 0);
    FilteredView(text, keep);
    forall j, k | p <= k < p + n && j == k - p + f ensures Drop(text, keep)[j] == out[k] {
      assert os[k] == From(at[j]);
    }
    SameStretch(Drop(text, keep), f, out, p, n);
  }

  lemma SameStretch(a: string, f: nat, b: string, p: nat, n: nat)
    requires f + n <= |a| && p + n <= |b|
    requires forall j, k | p <= k < p + n && j == k - p + f :: a[j] == b[k]
    ensures a[f..f + n] == b[p..p + n]
  {
    var x, y := a[f..f + n], b[p..p + n];
    forall i | 0 <= i < n ensures x[i] == y[i] {
      assert x[i] == a[f + i] && y[i] == b[p + i];
    }
  }

  /** A stretch of kept characters is the same stretch of the filtered view. */
  lemma {:induction false} KeptRunIsFiltered(text: string, keep: Charset, cuts: seq<Span>, p: nat, n: nat, f: nat)
    requires CutsWithin(cuts, 0, |text|) && n > 0
    requires var os := Origins(text, keep, cuts, 0);
             p + n <= |os| && (forall k | p <= k < p + n :: os[k].From?)
             && f < |KeptAt(text, keep)| && KeptAt(text, keep)[f] == os[p].at
    ensures var os, at := Origins(text, keep, cuts, 0), KeptAt(text, keep);
            f + n <= |at| && forall j, k | p <= k < p + n && j == k - p + f :: os[k] == From(at[j])
    decreases n
  {
    if n > 1 {
      KeptRunIsFiltered(text, keep, cuts, p, n - 1, f);
      NextKept(text, keep, cuts, p + n - 2, f + n - 2);
    }
  }

  lemma NextKept(text: string, keep: Charset, cuts: seq<Span>, p: nat, f: nat)
    requires CutsWithin(cuts, 0, |text|)
    requires var os := Origins(text, keep, cuts, 0);
             p + 1 < |os| && os[p].From? && os[p + 1].From?
             && f < |KeptAt(text, keep)| && KeptAt(text, keep)[f] == os[p].at
    ensures var os, at := Origins(text, keep, cuts, 0), KeptAt(text, keep);
            f + 1 < |at| && at[f + 1] == os[p + 1].at
  {
    SpliceTraced(text, keep, cuts, 0);
    OriginsInStep(text, keep, cuts, 0);
    FilteredView(text, keep);
    var os := Origins(text, keep, cuts, 0);
    assert InStep(text, keep, os[p], os[p + 1]);
    NextInOrder(KeptAt(text, keep), f, os[p + 1].at);
  }

  lemma NextInOrder(at: seq<nat>, f: nat, next: nat)
    requires Ascending(at)
    requires f < |at| && next in at && at[f] < next && forall k | 0 <= k < |at| :: !(at[f] < at[k] < next)
    ensures f + 1 < |at| && at[f + 1] == next
  {
    var g :| 0 <= g < |at| && at[g] == next;
  }

  // ------------------------------------------------------------------ nothing else is lost, and where the markers are

  /** Every kept character outside the cuts is in the result. */
  lemma {:induction false} UncutIsKept(text: string, keep: Charset, cuts: seq<Span>, from: nat, i: nat)
    requires CutsWithin(cuts, from, |text|) && from <= i < |text| && keep(text[i]) && !Covers(cuts, i)
    ensures From(i) in Origins(text, keep, cuts, from)
    decreases |cuts|
  {
    if cuts == [] || i < cuts[0].start {
      var upto := if cuts == [] then |text| else cuts[0].start;
      KeptInFacts(text, keep, from, upto);
      var k :| 0 <= k < |KeptIn(text, keep, from, upto)| && KeptIn(text, keep, from, upto)[k] == i;
      assert Kept(KeptIn(text, keep, from, upto))[k] == From(i);
    } else {
      RestWithin(cuts, from, |text|);
      FirstSpan(cuts);
      CoversRest(cuts, i);
      UncutIsKept(text, keep, cuts[1..], cuts[0].end, i);
    }
  }

  /** The characters that are the text's own stand in the text's order. */
  ghost predicate InTextOrder(os: seq<Origin>) {
    forall p, q | 0 <= p < q < |os| && os[p].From? && os[q].From? :: os[p].at < os[q].at
  }

  lemma KeptInOrder(text: string, keep: Charset, from: nat, upto: nat)
    requires from <= upto <= |text|
    ensures var os := Kept(KeptIn(text, keep, from, upto)); InTextOrder(os) && forall o | o in os :: from <= o.at < upto
  {
    KeptInFacts(text, keep, from, upto);
  }

  lemma InOrderAcrossMarker(a: seq<Origin>, b: seq<Origin>, upto: nat)
    requires InTextOrder(a) && InTextOrder(b)
    requires (forall o | o in a && o.From? :: o.at < upto) && (forall o | o in b && o.From? :: upto <= o.at)
    ensures InTextOrder(a + Marker() + b)
  {
    forall p, q | 0 <= p < |a| && 0 <= q < |b| && a[p].From? && b[q].From? ensures a[p].at < b[q].at {
      assert a[p] in a && b[q] in b;
    }
  }

  lemma {:induction false} OriginsInOrder(text: string, keep: Charset, cuts: seq<Span>, from: nat)
    requires CutsWithin(cuts, from, |text|)
    ensures InTextOrder(Origins(text, keep, cuts, from))
    decreases |cuts|
  {
    if cuts == [] {
      KeptInOrder(text, keep, from, |text|);
    } else {
      RestWithin(cuts, from, |text|);
      KeptInOrder(text, keep, from, cuts[0].start);
      OriginsInOrder(text, keep, cuts[1..], cuts[0].end);
      SpliceTraced(text, keep, cuts[1..], cuts[0].end);
      assert cuts[0] in cuts && cuts[0].start <= cuts[0].end;
      InOrderAcrossMarker(Kept(KeptIn(text, keep, from, cuts[0].start)), Origins(text, keep, cuts[1..], cuts[0].end),
                          cuts[0].end);
    }
  }

  /** The text's character at i is in the result. */
  predicate Stands(text: string, out: string, os: seq<Origin>, i: nat) {
    i < |text| && exists p | 0 <= p < |os| && p < |out| :: os[p] == From(i) && out[p] == text[i]
  }

  /** Of the text the result holds exactly the kept characters outside the cuts, in the text's order. */
  lemma StandsExactlyUncut(text: string, keep: Charset, cuts: seq<Span>)
    requires CutsWithin(cuts, 0, |text|)
    ensures var out, os := Splice(text, keep, cuts, 0), Origins(text, keep, cuts, 0);
            && |os| == |out| && InTextOrder(os)
            && forall i: nat | i < |text| :: Stands(text, out, os, i) <==> keep(text[i]) && !Covers(cuts, i)
  {
    var out, os := Splice(text, keep, cuts, 0), Origins(text, keep, cuts, 0);
    SpliceTraced(text, keep, cuts, 0);
    OriginsInOrder(text, keep, cuts, 0);
    forall i: nat | i < |text| && keep(text[i]) && !Covers(cuts, i) ensures Stands(text, out, os, i) {
      UncutIsKept(text, keep, cuts, 0, i);
      var p :| 0 <= p < |os| && os[p] == From(i);
      assert out[p] == text[i];
    }
  }

  /** A marker was put in here, whole. */
  predicate InsertedAt(os: seq<Origin>, p: int) {
    0 <= p && p + |REDACTED| <= |os| && forall k | 0 <= k < |REDACTED| :: os[p + k] == Inserted(k)
  }

  ghost predicate BeginMarkers(os: seq<Origin>, ms: seq<nat>, at: int) {
    forall m | m in ms :: InsertedAt(os, m - at)
  }

  ghost predicate AllListed(os: seq<Origin>, ms: seq<nat>, at: int) {
    forall p | 0 <= p < |os| && os[p].Inserted? :: IsListed(ms, p - os[p].nth + at)
  }

  /** The listed offsets are exactly where the inserted markers begin. */
  ghost predicate Placed(os: seq<Origin>, ms: seq<nat>, at: int) {
    BeginMarkers(os, ms, at) && AllListed(os, ms, at)
  }

  lemma MarkersPlaced(text: string, keep: Charset, cuts: seq<Span>, from: nat, at: nat)
    requires CutsWithin(cuts, from, |text|)
    ensures |MarkersFrom(text, keep, cuts, from, at)| == |cuts|
    ensures Placed(Origins(text, keep, cuts, from), MarkersFrom(text, keep, cuts, from, at), at)
  {
    MarkersBegin(text, keep, cuts, from, at);
    MarkersListed(text, keep, cuts, from, at);
  }

  lemma {:induction false} MarkersBegin(text: string, keep: Charset, cuts: seq<Span>, from: nat, at: nat)
    requires CutsWithin(cuts, from, |text|)
    ensures |MarkersFrom(text, keep, cuts, from, at)| == |cuts|
    ensures BeginMarkers(Origins(text, keep, cuts, from), MarkersFrom(text, keep, cuts, from, at), at)
    decreases |cuts|
  {
    if cuts != [] {
      RestWithin(cuts, from, |text|);
      DropIsKept(text, keep, from, cuts[0].start);
      var kept := Kept(KeptIn(text, keep, from, cuts[0].start));
      var marker := at + |Drop(text[from..cuts[0].start], keep)|;
      var os, ms := Origins(text, keep, cuts[1..], cuts[0].end),
          MarkersFrom(text, keep, cuts[1..], cuts[0].end, marker + |REDACTED|);
      MarkersBegin(text, keep, cuts[1..], cuts[0].end, marker + |REDACTED|);
      MarkersShift(kept, os, ms, at, marker);
    }
  }

  lemma {:induction false} MarkersListed(text: string, keep: Charset, cuts: seq<Span>, from: nat, at: nat)
    requires CutsWithin(cuts, from, |text|)
    ensures AllListed(Origins(text, keep, cuts, from), MarkersFrom(text, keep, cuts, from, at), at)
    decreases |cuts|
  {
    if cuts != [] {
      RestWithin(cuts, from, |text|);
      DropIsKept(text, keep, from, cuts[0].start);
      var offsets := KeptIn(text, keep, from, cuts[0].start);
      var marker := at + |Drop(text[from..cuts[0].start], keep)|;
      var os, ms := Origins(text, keep, cuts[1..], cuts[0].end),
          MarkersFrom(text, keep, cuts[1..], cuts[0].end, marker + |REDACTED|);
      MarkersListed(text, keep, cuts[1..], cuts[0].end, marker + |REDACTED|);
      assert MarkersFrom(text, keep, cuts, from, at) == [marker] + ms;
      assert Origins(text, keep, cuts, from) == Kept(offsets) + Marker() + os;
      ListedShift(offsets, os, ms, at, marker);
    }
  }

  lemma MarkersShift(kept: seq<Origin>, os: seq<Origin>, ms: seq<nat>, at: nat, marker: nat)
    requires marker == at + |kept| && BeginMarkers(os, ms, marker + |REDACTED|)
    ensures BeginMarkers(kept + Marker() + os, [marker] + ms, at)
  {
    var all := [marker] + ms;
    forall m | m in all ensures InsertedAt(kept + Marker() + os, m - at) {
      if m in ms {
        LaterMarker(kept + Marker(), os, m - marker - |REDACTED|);
      } else {
        FirstMarker(kept, os);
      }
    }
  }

  lemma FirstMarker(kept: seq<Origin>, os: seq<Origin>)
    ensures InsertedAt(kept + Marker() + os, |kept|)
  {
    var all := kept + Marker() + os;
    forall k | 0 <= k < |REDACTED| ensures all[|kept| + k] == Inserted(k) {
      assert all[|kept| + k] == Marker()[k];
    }
  }

  predicate IsListed(ms: seq<nat>, m: int) {
    m in ms
  }

  lemma ListedShift(offsets: seq<nat>, os: seq<Origin>, ms: seq<nat>, at: nat, marker: nat)
    requires marker == at + |offsets| && AllListed(os, ms, marker + |REDACTED|)
    ensures AllListed(Kept(offsets) + Marker() + os, [marker] + ms, at)
  {
    var kept, all := Kept(offsets), [marker] + ms;
    var origins := kept + Marker() + os;
    forall p | 0 <= p < |origins| && origins[p].Inserted? ensures IsListed(all, p - origins[p].nth + at) {
      if p < |kept| + |REDACTED| {
        assert p >= |kept|;
        assert origins[p] == Marker()[p - |kept|];
        assert all[0] == p - origins[p].nth + at;
      } else {
        var q := p - |kept| - |REDACTED|;
        assert origins[p] == os[q];
        assert IsListed(ms, q - os[q].nth + (marker + |REDACTED|));
      }
    }
  }

  lemma LaterMarker(before: seq<Origin>, os: seq<Origin>, p: int)
    requires InsertedAt(os, p)
    ensures InsertedAt(before + os, |before| + p)
  {
    forall k | 0 <= k < |REDACTED| ensures (before + os)[|before| + p + k] == Inserted(k) {
      assert (before + os)[|before| + (p + k)] == os[p + k];
    }
  }

  /** So it reads as one. */
  lemma InsertedReadsAsMarker(text: string, keep: Charset, cuts: seq<Span>, from: nat, out: string, os: seq<Origin>,
                              p: int)
    requires Traced(text, keep, cuts, from, out, os) && InsertedAt(os, p)
    ensures OccursAt(out, "[redacted]", p)
  {
    forall k | 0 <= k < |REDACTED| ensures out[p..p + |REDACTED|][k] == REDACTED[k] {
      assert os[p + k] == Inserted(k);
    }
  }
}
