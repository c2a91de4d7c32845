/** Cutting a plan document into the line spans of its phases, by headings or, when the phase
    section has none, by its list items. */
module PlanPhases {
  import opened Common

  /** A parsed heading; what its title says is decided by the text classifiers. */
  datatype Heading = Heading(line: nat, level: nat, isSection: bool, isPhase: bool, isNumbered: bool)

  /** Lines start up to, but not including, end. */
  datatype Span = Span(start: nat, end: nat)

  /** Headings in document order; `n` is the number of lines. */
  ghost predicate Document(headings: seq<Heading>, n: nat) {
    (forall i, j :: 0 <= i < j < |headings| ==> headings[i].line < headings[j].line)
    && forall i :: 0 <= i < |headings| ==> headings[i].line < n
  }

  function Find(headings: seq<Heading>, p: Heading -> bool): (r: Option<nat>)
    ensures r.None? <==> forall i :: 0 <= i < |headings| ==> !p(headings[i])
    ensures r.Some? ==> r.value < |headings| && p(headings[r.value]) && forall i :: 0 <= i < r.value ==> !p(headings[i])
  {
    if headings == [] then None
    else if p(headings[0]) then Some(0)
    else
      var rest := Find(headings[1..], p);
      assert forall i :: 1 <= i < |headings| ==> headings[i] == headings[1..][i - 1];
      if rest.Some? then Some(rest.value + 1) else None
  }

  function LineOf(headings: seq<Heading>, index: Option<nat>, otherwise: nat): nat
    requires index.Some? ==> index.value < |headings|
  {
    if index.Some? then headings[index.value].line else otherwise
  }

  function Section(headings: seq<Heading>): (section: Option<Heading>)
    ensures section.Some? ==> section.value in headings && section.value.isSection
    ensures section.None? ==> forall h :: h in headings ==> !h.isSection
  {
    var index := Find(headings, (h: Heading) => h.isSection);
    if index.Some? then Some(headings[index.value]) else None
  }

  /** The line that ends the section: the first later heading of its level or above. */
  function SectionEnd(headings: seq<Heading>, n: nat, section: Heading): nat {
    LineOf(headings, Find(headings, (h: Heading) => h.line > section.line && h.level <= section.level), n)
  }

  /** Where the span of the k-th heading ends. */
  function SpanEnd(headings: seq<Heading>, n: nat, k: nat): nat
    requires k < |headings|
  {
    LineOf(headings[k + 1..], Find(headings[k + 1..], (h: Heading) => h.level <= headings[k].level), n)
  }

  function Picked(headings: seq<Heading>, n: nat, h: Heading): bool {
    match Section(headings)
    case None => h.isPhase
    case Some(section) =>
      (h.isPhase || (h.level == section.level + 1 && h.isNumbered))
      && section.line < h.line < SectionEnd(headings, n, section) && h.level > section.level
  }

  /** Heading k opens the span. */
  ghost predicate Opens(headings: seq<Heading>, n: nat, k: nat, span: Span) {
    k < |headings| && Picked(headings, n, headings[k]) && span == Span(headings[k].line, SpanEnd(headings, n, k))
  }

  function SpansUpTo(headings: seq<Heading>, n: nat, k: nat): seq<Span>
    requires k <= |headings|
  {
    if k == 0 then []
    else
      SpansUpTo(headings, n, k - 1)
      + if Picked(headings, n, headings[k - 1]) then [Span(headings[k - 1].line, SpanEnd(headings, n, k - 1))] else []
  }

  function HeadingSpans(headings: seq<Heading>, n: nat): seq<Span> {
    SpansUpTo(headings, n, |headings|)
  }

  // What heading spans satisfy

  /** The span runs to the next heading that is not below its own, or to the end of the document. */
  lemma SpanEndExactly(headings: seq<Heading>, n: nat, k: nat)
    requires Document(headings, n) && k < |headings|
    ensures headings[k].line < SpanEnd(headings, n, k) <= n
    ensures forall j :: k < j < |headings| ==>
              (headings[j].line < SpanEnd(headings, n, k)
               <==> forall i :: k < i <= j ==> headings[i].level > headings[k].level)
  {
    var rest := headings[k + 1..];
    var end := SpanEnd(headings, n, k);
    var found := Find(rest, (h: Heading) => h.level <= headings[k].level);
    assert forall i :: k < i < |headings| ==> headings[i] == rest[i - k - 1];
    forall j | k < j < |headings|
      ensures headings[j].line < end <==> forall i :: k < i <= j ==> headings[i].level > headings[k].level
    {
      if found.Some? {
        var stop := k + 1 + found.value;
        assert rest[found.value] == headings[stop];
        if j >= stop {
          assert headings[stop].level <= headings[k].level;
        }
      }
    }
  }

  lemma SectionEndExactly(headings: seq<Heading>, n: nat, section: Heading, k: nat)
    requires Document(headings, n) && section in headings
    requires k < |headings| && section.line < headings[k].line < SectionEnd(headings, n, section)
    requires headings[k].level > section.level
    ensures section.line < SectionEnd(headings, n, section) <= n
    ensures SpanEnd(headings, n, k) <= SectionEnd(headings, n, section)
  {
    var stop := Find(headings, (h: Heading) => h.line > section.line && h.level <= section.level);
    SpanEndExactly(headings, n, k);
    if stop.Some? {
      var j := stop.value;
      assert j > k;
    }
  }

  lemma {:induction false} SpanAt(headings: seq<Heading>, n: nat, k: nat, x: nat) returns (at: nat)
    requires Document(headings, n) && k <= |headings| && x < |SpansUpTo(headings, n, k)|
    ensures at < k && Opens(headings, n, at, SpansUpTo(headings, n, k)[x])
  {
    var before := SpansUpTo(headings, n, k - 1);
    if x < |before| {
      at := SpanAt(headings, n, k - 1, x);
    } else {
      at := k - 1;
    }
  }

  lemma {:induction false} StartsIncrease(headings: seq<Heading>, n: nat, k: nat, x: nat, y: nat)
    requires Document(headings, n) && k <= |headings| && x < y < |SpansUpTo(headings, n, k)|
    ensures SpansUpTo(headings, n, k)[x].start < SpansUpTo(headings, n, k)[y].start
  {
    var before := SpansUpTo(headings, n, k - 1);
    if y < |before| {
      StartsIncrease(headings, n, k - 1, x, y);
    } else {
      var at := SpanAt(headings, n, k - 1, x);
      assert headings[at].line < headings[k - 1].line;
    }
  }

  /** Exactly the picked headings open spans. */
  lemma {:induction false} SpansAreThePicked(headings: seq<Heading>, n: nat, k: nat, span: Span)
    requires Document(headings, n) && k <= |headings|
    ensures span in SpansUpTo(headings, n, k) <==> exists at :: 0 <= at < k && Opens(headings, n, at, span)
  {
    if k > 0 {
      SpansAreThePicked(headings, n, k - 1, span);
      assert Picked(headings, n, headings[k - 1]) ==>
          Opens(headings, n, k - 1, Span(headings[k - 1].line, SpanEnd(headings, n, k - 1)));
      if Opens(headings, n, k - 1, span) {
        assert span in SpansUpTo(headings, n, k);
      }
    }
  }

  /** Heading `m` opens the phase section: it is the first section heading. */
  ghost predicate SectionAt(headings: seq<Heading>, m: int) {
    0 <= m < |headings| && headings[m].isSection && forall i :: 0 <= i < m ==> !headings[i].isSection
  }

  lemma SectionIsFirst(headings: seq<Heading>)
    ensures Section(headings).None? <==> forall m :: !SectionAt(headings, m)
    ensures forall m :: SectionAt(headings, m) ==> Section(headings) == Some(headings[m])
  {
    var index := Find(headings, (h: Heading) => h.isSection);
    if index.Some? {
      assert SectionAt(headings, index.value);
    }
  }

  /** A later heading belongs to the section exactly if none up to it is of the section's level or above. */
  lemma SectionEndsExactly(headings: seq<Heading>, n: nat, m: nat, k: nat)
    requires Document(headings, n) && m < |headings| && m < k < |headings|
    ensures headings[k].line < SectionEnd(headings, n, headings[m])
            <==> forall i :: m < i <= k ==> headings[i].level > headings[m].level
  {
    var stop := Find(headings, (h: Heading) => h.line > headings[m].line && h.level <= headings[m].level);
    if stop.Some? {
      assert stop.value > m;
    }
  }

  /** Which headings open spans, without a section and with one: phases, and numbered headings right
      below the section's level, in the part of the document that is below the section heading. */
  lemma PickedExactly(headings: seq<Heading>, n: nat, k: nat)
    requires Document(headings, n) && k < |headings|
    ensures (forall m :: !SectionAt(headings, m)) ==> (Picked(headings, n, headings[k]) <==> headings[k].isPhase)
    ensures forall m :: SectionAt(headings, m) ==>
              (Picked(headings, n, headings[k])
               <==> m < k && (forall i :: m < i <= k ==> headings[i].level > headings[m].level)
                    && (headings[k].isPhase || (headings[k].isNumbered && headings[k].level == headings[m].level + 1)))
  {
    SectionIsFirst(headings);
    forall m | SectionAt(headings, m)
      ensures Picked(headings, n, headings[k])
              <==> m < k && (forall i :: m < i <= k ==> headings[i].level > headings[m].level)
                   && (headings[k].isPhase || (headings[k].isNumbered && headings[k].level == headings[m].level + 1))
    {
      if m < k {
        SectionEndsExactly(headings, n, m, k);
      } else {
        assert headings[k].line <= headings[m].line;
      }
    }
  }

  predicate Disjoint(a: Span, b: Span) {
    a.end <= b.start || b.end <= a.start
  }

  predicate Inside(a: Span, b: Span) {
    b.start <= a.start && a.end <= b.end
  }

  lemma NestedOrDisjoint(headings: seq<Heading>, n: nat, i: nat, j: nat)
    requires Document(headings, n) && i < j < |headings|
    ensures var a := Span(headings[i].line, SpanEnd(headings, n, i));
            var b := Span(headings[j].line, SpanEnd(headings, n, j));
            Disjoint(a, b) || Inside(b, a)
  {
    SpanEndExactly(headings, n, i);
    SpanEndExactly(headings, n, j);
  }

  /** Non-empty, starting in increasing order, pairwise disjoint or nested. */
  ghost predicate NestedCut(spans: seq<Span>, n: nat) {
    (forall x :: 0 <= x < |spans| ==> spans[x].start < spans[x].end <= n)
    && (forall x, y :: 0 <= x < y < |spans| ==> spans[x].start < spans[y].start)
    && (forall x, y :: 0 <= x < y < |spans| ==> Disjoint(spans[x], spans[y]) || Inside(spans[y], spans[x]))
  }

  lemma HeadingSpanPlace(headings: seq<Heading>, n: nat, x: nat)
    requires Document(headings, n) && x < |HeadingSpans(headings, n)|
    ensures var span := HeadingSpans(headings, n)[x];
            span.start < span.end <= n
            && (Section(headings).Some? ==>
                  var section := Section(headings).value;
                  section.line < span.start && span.end <= SectionEnd(headings, n, section))
  {
    var at := SpanAt(headings, n, |headings|, x);
    SpanEndExactly(headings, n, at);
    if Section(headings).Some? {
      SectionEndExactly(headings, n, Section(headings).value, at);
    }
  }

  lemma HeadingSpanPair(headings: seq<Heading>, n: nat, x: nat, y: nat)
    requires Document(headings, n) && x < y < |HeadingSpans(headings, n)|
    ensures var a, b := HeadingSpans(headings, n)[x], HeadingSpans(headings, n)[y];
            a.start < b.start && (Disjoint(a, b) || Inside(b, a))
  {
    StartsIncrease(headings, n, |headings|, x, y);
    var i := SpanAt(headings, n, |headings|, x);
    var j := SpanAt(headings, n, |headings|, y);
    assert i < j;
    NestedOrDisjoint(headings, n, i, j);
  }

  /** Spans cut at headings are non-empty, start in increasing order, lie inside the phase section
      when there is one, and are pairwise disjoint or nested. */
  lemma HeadingSpansWellFormed(headings: seq<Heading>, n: nat)
    requires Document(headings, n)
    ensures NestedCut(HeadingSpans(headings, n), n)
    ensures Section(headings).Some? ==>
              var section := Section(headings).value;
              forall span :: span in HeadingSpans(headings, n) ==>
                section.line < span.start && span.end <= SectionEnd(headings, n, section)
  {
    var spans := HeadingSpans(headings, n);
    forall x | 0 <= x < |spans|
      ensures spans[x].start < spans[x].end <= n
      ensures Section(headings).Some? ==>
                Section(headings).value.line < spans[x].start && spans[x].end <= SectionEnd(headings, n, Section(headings).value)
    {
      HeadingSpanPlace(headings, n, x);
    }
    forall x, y | 0 <= x < y < |spans|
      ensures spans[x].start < spans[y].start && (Disjoint(spans[x], spans[y]) || Inside(spans[y], spans[x]))
    {
      HeadingSpanPair(headings, n, x, y);
    }
  }

  // List items

  /** What the text classifiers say of a line: not a list item, or an item that is a phase or not. */
  type Lines = nat -> Option<bool>

  datatype Candidate = Candidate(line: nat, isPhase: bool)

  function Candidates(lines: Lines, start: nat, end: nat): (r: seq<Candidate>)
    requires start <= end
    ensures forall i, j :: 0 <= i < j < |r| ==> r[i].line < r[j].line
    ensures forall i :: 0 <= i < |r| ==> start <= r[i].line < end && lines(r[i].line) == Some(r[i].isPhase)
    decreases end - start
  {
    if start == end then []
    else
      (if lines(start).Some? then [Candidate(start, lines(start).value)] else []) + Candidates(lines, start + 1, end)
  }

  /** Every list item of the section is a candidate, and nothing else is. */
  lemma {:induction false} CandidatesExactly(lines: Lines, start: nat, end: nat, c: Candidate)
    requires start <= end
    ensures c in Candidates(lines, start, end) <==> start <= c.line < end && lines(c.line) == Some(c.isPhase)
    decreases end - start
  {
    if start < end {
      CandidatesExactly(lines, start + 1, end, c);
    }
  }

  function ListSpans(candidates: seq<Candidate>, end: nat): seq<Span> {
    if candidates == [] then []
    else
      var next := if |candidates| > 1 then candidates[1].line else end;
      (if candidates[0].isPhase then [Span(candidates[0].line, next)] else []) + ListSpans(candidates[1..], end)
  }

  ghost predicate Ordered(candidates: seq<Candidate>, start: nat, end: nat) {
    (forall i, j :: 0 <= i < j < |candidates| ==> candidates[i].line < candidates[j].line)
    && forall i :: 0 <= i < |candidates| ==> start <= candidates[i].line < end
  }

  /** Non-empty, disjoint, in order and inside the section. */
  ghost predicate CutInOrder(spans: seq<Span>, start: nat, end: nat) {
    (forall x :: 0 <= x < |spans| ==> start <= spans[x].start < spans[x].end <= end)
    && forall x, y :: 0 <= x < y < |spans| ==> spans[x].end <= spans[y].start
  }

  /** No span runs over a list item but its own. */
  ghost predicate OneItemEach(spans: seq<Span>, candidates: seq<Candidate>) {
    forall span, c :: span in spans && c in candidates ==> (span.start <= c.line < span.end <==> c.line == span.start)
  }

  lemma CutPrepended(head: Span, tail: seq<Span>, start: nat, end: nat)
    requires start <= head.start < head.end <= end && CutInOrder(tail, head.end, end)
    ensures CutInOrder([head] + tail, start, end) && CutInOrder(tail, start, end)
  {
    var spans := [head] + tail;
    assert forall x :: 1 <= x < |spans| ==> spans[x] == tail[x - 1];
  }

  lemma OneItemPrepended(candidates: seq<Candidate>, next: nat, tail: seq<Span>, end: nat)
    requires candidates != [] && candidates[0].line < next && CutInOrder(tail, next, end) && OneItemEach(tail, candidates[1..])
    requires forall d :: d in candidates[1..] ==> next <= d.line
    ensures OneItemEach(tail, candidates) && OneItemEach([Span(candidates[0].line, next)] + tail, candidates)
  {
    forall span, d | span in [Span(candidates[0].line, next)] + tail && d in candidates
      ensures span.start <= d.line < span.end <==> d.line == span.start
    {
      assert d == candidates[0] || d in candidates[1..];
      assert span in tail ==> next <= span.start;
    }
  }

  lemma RestOrdered(candidates: seq<Candidate>, start: nat, end: nat)
    requires Ordered(candidates, start, end) && candidates != []
    ensures var next := if |candidates| > 1 then candidates[1].line else end;
            Ordered(candidates[1..], next, end) && start <= candidates[0].line < next <= end
            && forall d :: d in candidates[1..] ==> next <= d.line
  {
    assert forall i :: 1 <= i < |candidates| ==> candidates[i] == candidates[1..][i - 1];
  }

  lemma {:induction false} ListSpansWellFormed(candidates: seq<Candidate>, start: nat, end: nat)
    requires Ordered(candidates, start, end)
    ensures CutInOrder(ListSpans(candidates, end), start, end)
    ensures OneItemEach(ListSpans(candidates, end), candidates)
  {
    if candidates != [] {
      var next := if |candidates| > 1 then candidates[1].line else end;
      var tail := ListSpans(candidates[1..], end);
      var first := Span(candidates[0].line, next);
      assert ListSpans(candidates, end) == if candidates[0].isPhase then [first] + tail else tail;
      hide *;
      RestOrdered(candidates, start, end);
      ListSpansWellFormed(candidates[1..], next, end);
      OneItemPrepended(candidates, next, tail, end);
      CutPrepended(first, tail, start, end);
    }
  }

  predicate StartsAt(spans: seq<Span>, line: nat) {
    exists span :: span in spans && span.start == line
  }

  /** Every phase item of the section opens a span, and nothing else does. */
  lemma {:induction false} ListSpansAreThePhases(candidates: seq<Candidate>, end: nat, line: nat)
    ensures StartsAt(ListSpans(candidates, end), line) <==> Candidate(line, true) in candidates
  {
    if candidates != [] {
      ListSpansAreThePhases(candidates[1..], end, line);
      var next := if |candidates| > 1 then candidates[1].line else end;
      var head := if candidates[0].isPhase then [Span(candidates[0].line, next)] else [];
      var tail := ListSpans(candidates[1..], end);
      assert ListSpans(candidates, end) == head + tail;
      assert StartsAt(head + tail, line) <==> StartsAt(head, line) || StartsAt(tail, line) by {
        forall span | span in head + tail ensures span in head || span in tail {}
        forall span | span in head || span in tail ensures span in head + tail {}
      }
      assert StartsAt(head, line) <==> candidates[0] == Candidate(line, true) by {
        if candidates[0].isPhase {
          assert head[0] in head;
        }
      }
      assert candidates == [candidates[0]] + candidates[1..];
    }
  }

  /** A list span runs to the next list item, or to the end of the section after the last. */
  lemma {:induction false} ListSpanEnds(candidates: seq<Candidate>, start: nat, end: nat, span: Span)
    requires Ordered(candidates, start, end) && span in ListSpans(candidates, end)
    ensures span.end == end || exists c :: c in candidates && c.line == span.end
    ensures forall c :: c in candidates && c.line > span.start ==> span.end <= c.line
  {
    RestOrdered(candidates, start, end);
    var next := if |candidates| > 1 then candidates[1].line else end;
    assert candidates == [candidates[0]] + candidates[1..];
    if span in ListSpans(candidates[1..], end) {
      ListSpanEnds(candidates[1..], next, end, span);
      ListSpansWellFormed(candidates[1..], next, end);
    } else if |candidates| > 1 {
      assert candidates[1] in candidates;
    }
  }

  // The segmentation

  lemma SectionEndBounds(headings: seq<Heading>, n: nat, section: Heading)
    requires Document(headings, n) && section in headings
    ensures section.line < SectionEnd(headings, n, section) <= n
  {
  }

  lemma InOrderIsNested(spans: seq<Span>, start: nat, end: nat, n: nat)
    requires CutInOrder(spans, start, end) && end <= n
    ensures NestedCut(spans, n)
  {
  }

  lemma ListSpansNested(lines: Lines, start: nat, end: nat, n: nat)
    requires start <= end <= n
    ensures NestedCut(ListSpans(Candidates(lines, start, end), end), n)
  {
    hide ListSpans, CutInOrder, OneItemEach, NestedCut;
    var candidates := Candidates(lines, start, end);
    ListSpansWellFormed(candidates, start, end);
    InOrderIsNested(ListSpans(candidates, end), start, end, n);
  }

  lemma SpansUpToNext(headings: seq<Heading>, n: nat, k: nat)
    requires k < |headings|
    ensures SpansUpTo(headings, n, k + 1)
            == SpansUpTo(headings, n, k) + if Picked(headings, n, headings[k]) then [Span(headings[k].line, SpanEnd(headings, n, k))] else []
  {
    hide Picked, SpanEnd;
  }

  /** The loop over the headings. */
  method PickSpans(headings: seq<Heading>, n: nat) returns (selected: seq<Span>)
    requires Document(headings, n)
    ensures selected == HeadingSpans(headings, n)
  {
    hide Document, SectionEnd, SpanEnd, SpansUpTo, Section;
    var section := Section(headings);
    var sectionEnd := if section.Some? then SectionEnd(headings, n, section.value) else n;
    selected := [];
    SpansUpToNone(headings, n);
    for k := 0 to |headings|
      invariant selected == SpansUpTo(headings, n, k)
    {
      SpansUpToNext(headings, n, k);
      var h := headings[k];
      var isNumberedChild := section.Some? && h.level == section.value.level + 1 && h.isNumbered;
      if !h.isPhase && !isNumberedChild {
        continue;
      }
      if section.Some? && (h.line <= section.value.line || h.line >= sectionEnd || h.level <= section.value.level) {
        continue;
      }
      var end := SpanEnd(headings, n, k);
      selected := selected + [Span(h.line, end)];
    }
  }

  lemma SpansUpToNone(headings: seq<Heading>, n: nat)
    ensures SpansUpTo(headings, n, 0) == []
  {
  }

  /** The spans of `phase_work_items`. */
  method PhaseSpans(headings: seq<Heading>, n: nat, lines: Lines) returns (selected: seq<Span>)
    requires Document(headings, n)
    ensures HeadingSpans(headings, n) != [] || Section(headings).None? ==> selected == HeadingSpans(headings, n)
    ensures HeadingSpans(headings, n) == [] && Section(headings).Some? ==>
              var section := Section(headings).value;
              section.line < SectionEnd(headings, n, section)
              && selected == ListSpans(Candidates(lines, section.line + 1, SectionEnd(headings, n, section)), SectionEnd(headings, n, section))
    ensures NestedCut(selected, n)
  {
    hide *;
    var section := Section(headings);
    selected := PickSpans(headings, n);
    HeadingSpansWellFormed(headings, n);
    if selected == [] && section.Some? {
      SectionEndBounds(headings, n, section.value);
      var sectionEnd := SectionEnd(headings, n, section.value);
      selected := ListSpans(Candidates(lines, section.value.line + 1, sectionEnd), sectionEnd);
      ListSpansNested(lines, section.value.line + 1, sectionEnd, n);
    }
  }
}
