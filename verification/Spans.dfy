/** Half-open spans of a text, and the merge that both redactions share. */
module Spans {
  datatype Span = Span(start: nat, end: nat)

  ghost predicate Covers(spans: seq<Span>, x: int) {
    exists s | s in spans :: s.start <= x < s.end
  }

  predicate NonEmpty(spans: seq<Span>) {
    forall s | s in spans :: s.start < s.end
  }

  /** Sorted, disjoint and not even touching. */
  ghost predicate NormalForm(cuts: seq<Span>) {
    && (forall i | 0 <= i < |cuts| :: cuts[i].start < cuts[i].end)
    && forall i, j | 0 <= i < j < |cuts| :: cuts[i].end < cuts[j].start
  }

  predicate SortedByStart(spans: seq<Span>) {
    forall i, j | 0 <= i < j < |spans| :: spans[i].start <= spans[j].start
  }

  /** The stable sort on start offsets. */
  function SortByStart(spans: seq<Span>): (sorted: seq<Span>)
    ensures SortedByStart(sorted) && multiset(sorted) == multiset(spans)
  {
    if spans == [] then [] else
    assert spans == spans[..|spans| - 1] + [spans[|spans| - 1]];
    InsertSorted(SortByStart(spans[..|spans| - 1]), spans[|spans| - 1]);
    InsertKeeps(SortByStart(spans[..|spans| - 1]), spans[|spans| - 1]);
    Insert(SortByStart(spans[..|spans| - 1]), spans[|spans| - 1])
  }

  function Insert(sorted: seq<Span>, x: Span): (r: seq<Span>) {
    if sorted == [] || sorted[|sorted| - 1].start <= x.start then sorted + [x]
    else Insert(sorted[..|sorted| - 1], x) + [sorted[|sorted| - 1]]
  }

  lemma {:induction false} InsertKeeps(sorted: seq<Span>, x: Span)
    ensures multiset(Insert(sorted, x)) == multiset(sorted) + multiset{x}
  {
    if !(sorted == [] || sorted[|sorted| - 1].start <= x.start) {
      InsertKeeps(sorted[..|sorted| - 1], x);
      assert sorted == sorted[..|sorted| - 1] + [sorted[|sorted| - 1]];
    }
  }

  lemma {:induction false} InsertSorted(sorted: seq<Span>, x: Span)
    requires SortedByStart(sorted)
    ensures SortedByStart(Insert(sorted, x))
  {
    if !(sorted == [] || sorted[|sorted| - 1].start <= x.start) {
      var last, front := sorted[|sorted| - 1], sorted[..|sorted| - 1];
      InsertSorted(front, x);
      InsertKeeps(front, x);
      SameElements(Insert(front, x), front + [x]);
      AppendSorted(Insert(front, x), last);
    }
  }

  lemma AppendSorted(sorted: seq<Span>, last: Span)
    requires SortedByStart(sorted) && forall s | s in sorted :: s.start <= last.start
    ensures SortedByStart(sorted + [last])
  {
  }

  lemma SameElements(a: seq<Span>, b: seq<Span>)
    requires multiset(a) == multiset(b)
    ensures forall s :: s in a <==> s in b
  {
    forall s: Span ensures s in a <==> s in b {
      assert s in multiset(a) <==> s in multiset(b);
    }
  }

  /** What the loop knows when it has merged the spans that start no later than `from`. */
  ghost predicate Merged(cuts: seq<Span>, spans: seq<Span>, from: nat) {
    && NormalForm(cuts)
    && (cuts != [] ==> cuts[|cuts| - 1].start <= from)
    && forall x: int :: Covers(cuts, x) <==> Covers(spans, x)
  }

  lemma WidenLast(cuts: seq<Span>, spans: seq<Span>, span: Span)
    requires cuts != [] && Merged(cuts, spans, span.start) && span.start < span.end
    requires span.start <= cuts[|cuts| - 1].end
    ensures var last := cuts[|cuts| - 1];
            Merged(cuts[|cuts| - 1 := Span(last.start, if span.end > last.end then span.end else last.end)],
                   spans + [span], span.start)
  {
    var n := |cuts| - 1;
    var last := cuts[n];
    var wide := Span(last.start, if span.end > last.end then span.end else last.end);
    var cuts' := cuts[n := wide];
    forall x: int ensures Covers(cuts', x) <==> Covers(spans + [span], x) {
      if Covers(cuts', x) {
        var s :| s in cuts' && s.start <= x < s.end;
        if s == wide && !(span.start <= x < span.end) {
          assert last in cuts;
        } else if s != wide {
          assert s in cuts;
        }
      }
      if Covers(cuts, x) {
        var s :| s in cuts && s.start <= x < s.end;
        var i :| 0 <= i <= n && cuts[i] == s;
        assert cuts'[i] in cuts';
      }
      assert wide == cuts'[n];
    }
  }

  lemma AddCut(cuts: seq<Span>, spans: seq<Span>, span: Span)
    requires Merged(cuts, spans, span.start) && span.start < span.end
    requires cuts != [] ==> cuts[|cuts| - 1].end < span.start
    ensures Merged(cuts + [span], spans + [span], span.start)
  {
    forall x: int ensures Covers(cuts + [span], x) <==> Covers(spans + [span], x) {
      CoversAppend(cuts, span, x);
      CoversAppend(spans, span, x);
    }
  }

  lemma CoversAppend(spans: seq<Span>, span: Span, x: int)
    ensures Covers(spans + [span], x) <==> Covers(spans, x) || span.start <= x < span.end
  {
    if Covers(spans, x) {
      var s :| s in spans && s.start <= x < s.end;
      assert s in spans + [span];
    }
    assert span in spans + [span];
  }

  /** Spans that overlap or touch are cut out as one. */
  method MergeSpans(spans: seq<Span>) returns (cuts: seq<Span>)
    requires NonEmpty(spans)
    ensures NormalForm(cuts)
    ensures forall x: int :: Covers(cuts, x) <==> Covers(spans, x)
  {
    var sorted := SortByStart(spans);
    SameElements(sorted, spans);
    cuts := [];
    ghost var from: nat := 0;
    for i := 0 to |sorted|
      invariant Merged(cuts, sorted[..i], from)
      invariant i < |sorted| ==> from <= sorted[i].start
    {
      var span := sorted[i];
      assert Merged(cuts, sorted[..i], span.start);
      assert sorted[..i + 1] == sorted[..i] + [span];
      if cuts != [] && span.start <= cuts[|cuts| - 1].end {
        WidenLast(cuts, sorted[..i], span);
        var last := cuts[|cuts| - 1];
        cuts := cuts[|cuts| - 1 := Span(last.start, if span.end > last.end then span.end else last.end)];
      } else {
        AddCut(cuts, sorted[..i], span);
        cuts := cuts + [span];
      }
      from := span.start;
    }
    assert sorted[..|sorted|] == sorted;
  }

  ghost predicate SameCover(a: seq<Span>, b: seq<Span>) {
    forall x: int :: Covers(a, x) <==> Covers(b, x)
  }

  /** What is covered fixes the cuts, so the order in which the echoes are found does not matter. */
  lemma {:induction false} NormalFormUnique(a: seq<Span>, b: seq<Span>)
    requires NormalForm(a) && NormalForm(b)
    requires SameCover(a, b)
    ensures a == b
    decreases |a|
  {
    FirstSpan(a);
    FirstSpan(b);
    if a != [] && b != [] {
      StartsNoLater(a, b);
      StartsNoLater(b, a);
      EndsNoLater(a, b);
      EndsNoLater(b, a);
      RestSameCover(a, b);
      NormalFormUnique(a[1..], b[1..]);
      assert a == [a[0]] + a[1..] && b == [b[0]] + b[1..];
    }
  }

  lemma FirstSpan(a: seq<Span>)
    requires NormalForm(a)
    ensures a != [] ==> Covers(a, a[0].start) && !Covers(a, a[0].end)
    ensures forall x: int :: a != [] && a[0].start <= x < a[0].end ==> Covers(a, x)
    ensures forall x: int :: a != [] && x < a[0].start ==> !Covers(a, x)
  {
  }

  lemma RestSameCover(a: seq<Span>, b: seq<Span>)
    requires NormalForm(a) && NormalForm(b) && SameCover(a, b) && a != [] && b != [] && a[0] == b[0]
    ensures SameCover(a[1..], b[1..])
  {
    forall x: int ensures Covers(a[1..], x) <==> Covers(b[1..], x) {
      CoversRest(a, x);
      CoversRest(b, x);
    }
  }

  lemma StartsNoLater(a: seq<Span>, b: seq<Span>)
    requires NormalForm(a) && NormalForm(b) && a != [] && b != [] && SameCover(a, b)
    ensures b[0].start <= a[0].start
  {
    FirstSpan(a);
    FirstSpan(b);
  }

  lemma EndsNoLater(a: seq<Span>, b: seq<Span>)
    requires NormalForm(a) && NormalForm(b) && a != [] && b != [] && a[0].start == b[0].start && SameCover(a, b)
    ensures b[0].end <= a[0].end
  {
    FirstSpan(a);
    FirstSpan(b);
  }

  lemma CoversRest(a: seq<Span>, x: int)
    requires NormalForm(a) && a != []
    ensures Covers(a[1..], x) <==> Covers(a, x) && x > a[0].end
  {
    assert a == [a[0]] + a[1..];
    if Covers(a, x) && x > a[0].end {
      var s :| s in a && s.start <= x < s.end;
      assert s in a[1..];
    }
  }
}
