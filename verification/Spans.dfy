/** `mergeFindingSpans`: findings fused into disjoint spans that do not touch. */
module Spans {
  import opened Wrappers
  import opened Utf16
  import opened AuditChain
  import opened Ordered

  /** A finding; the last field carries the members of a span that was merged before. */
  datatype Finding = Finding(detector: Text, index: nat, length: nat, detectors: Option<seq<Text>>)

  datatype SignalClass = PiiStrong | PiiStandard

  /** No detector: a span whose findings all carry an empty member list. */
  datatype Span = Span(detector: Option<Text>, detectors: seq<Text>, signal: SignalClass, index: nat, length: nat)

  function End(f: Finding): nat { f.index + f.length }

  function SpanEnd(s: Span): nat { s.index + s.length }

  function MembersOf(f: Finding): seq<Text>
  {
    if f.detectors.Some? then f.detectors.value else [f.detector]
  }

  predicate IsStrong(d: Text) { d == Key("cpf") || d == Key("cnpj") }

  function FirstStrong(ds: seq<Text>): Option<Text>
  {
    if |ds| == 0 then None else if IsStrong(ds[0]) then Some(ds[0]) else FirstStrong(ds[1..])
  }

  /** A span as the flush builds it: a strong detector wins, else the first by name. */
  function SpanOf(detectors: seq<Text>, index: nat, end: nat): Span
    requires index <= end
  {
    var strong := FirstStrong(detectors);
    Span(if strong.Some? then strong else if |detectors| > 0 then Some(detectors[0]) else None,
         detectors, if strong.Some? then PiiStrong else PiiStandard, index, end - index)
  }

  // ---------------------------------------------------------------------------------------
  // What the result is
  // ---------------------------------------------------------------------------------------

  predicate Inside(f: Finding, s: Span) { s.index <= f.index && f.index + f.length <= s.index + s.length }

  /** Positions and the points between them: `2p` is the start of position `p`, `2p + 1` its middle.
      A finding covers its points from its start to its end, so findings that touch share a point. */
  predicate Covers(f: Finding, d: int) { 2 * f.index <= d <= 2 * (f.index + f.length) }

  ghost predicate Covered(fs: seq<Finding>, d: int) { exists f | f in fs :: Covers(f, d) }

  ghost predicate Inhabits(fs: seq<Finding>, s: Span, x: Text)
  {
    exists f | f in fs :: Inside(f, s) && x in MembersOf(f)
  }

  ghost predicate SpanOk(fs: seq<Finding>, s: Span)
  {
    && (forall d | 2 * s.index <= d <= 2 * (s.index + s.length) :: Covered(fs, d))
    && Increasing(s.detectors) && (forall x :: x in s.detectors <==> Inhabits(fs, s, x))
    && s == SpanOf(s.detectors, s.index, s.index + s.length)
  }

  ghost predicate Housed(out: seq<Span>, f: Finding)
  {
    exists s | s in out :: Inside(f, s)
  }

  /** In order, with a gap between neighbours; every finding inside a span; every point of a span
      covered by a finding; each span's members those of the findings inside it. */
  ghost predicate IsMerge(fs: seq<Finding>, out: seq<Span>)
  {
    && (forall i, j | 0 <= i < j < |out| :: SpanEnd(out[i]) < out[j].index)
    && (forall f | f in fs :: Housed(out, f))
    && (forall s | s in out :: SpanOk(fs, s))
  }

  /** The two detectors with a check digit. */
  ghost predicate Checked(d: Text) { d == Key("cpf") || d == Key("cnpj") }

  /** A merged span is strong exactly when a finding inside it carries a detector with a check digit, and is
      named after the first such member, and after its first member when there is none. */
  lemma SpanLabels(fs: seq<Finding>, s: Span)
    requires SpanOk(fs, s)
    ensures s.signal == PiiStrong <==> exists f, x :: f in fs && Inside(f, s) && x in MembersOf(f) && Checked(x)
    ensures s.signal == PiiStrong ==>
              exists i :: 0 <= i < |s.detectors| && s.detector == Some(s.detectors[i]) && Checked(s.detectors[i])
                && forall j | 0 <= j < i :: !Checked(s.detectors[j])
    ensures s.signal == PiiStandard ==> s.detector == if s.detectors == [] then None else Some(s.detectors[0])
  {
    hide Key, Increasing, MembersOf, Inside;
    FirstStrongIs(s.detectors);
    if s.signal == PiiStrong {
      var i :| 0 <= i < |s.detectors| && Checked(s.detectors[i]);
      assert Inhabits(fs, s, s.detectors[i]);
    }
    if f, x :| f in fs && Inside(f, s) && x in MembersOf(f) && Checked(x) {
      assert Inhabits(fs, s, x);
      assert x in s.detectors;
    }
  }

  lemma {:induction false} FirstStrongIs(ds: seq<Text>)
    ensures FirstStrong(ds).None? ==> forall d | d in ds :: !Checked(d)
    ensures FirstStrong(ds).Some? ==>
              exists i :: 0 <= i < |ds| && FirstStrong(ds) == Some(ds[i]) && Checked(ds[i])
                && forall j | 0 <= j < i :: !Checked(ds[j])
  {
    hide Key;
    if |ds| > 0 && !IsStrong(ds[0]) {
      FirstStrongIs(ds[1..]);
      if i :| 0 <= i < |ds[1..]| && FirstStrong(ds[1..]) == Some(ds[1..][i]) && Checked(ds[1..][i])
              && forall j | 0 <= j < i :: !Checked(ds[1..][j]) {
        forall j | 0 <= j < i + 1 ensures !Checked(ds[j]) { if j > 0 { assert ds[j] == ds[1..][j - 1]; } }
        assert ds[i + 1] == ds[1..][i];
      }
    }
  }

  // ---------------------------------------------------------------------------------------
  // There is one such result
  // ---------------------------------------------------------------------------------------

  lemma Apart(fs: seq<Finding>, out: seq<Span>, s: Span, t: Span)
    requires IsMerge(fs, out) && s in out && t in out
    ensures s == t || SpanEnd(s) < t.index || SpanEnd(t) < s.index
  {
    var i :| 0 <= i < |out| && out[i] == s;
    var j :| 0 <= j < |out| && out[j] == t;
  }

  /** A span that covers a point of another merge's span covers it whole. */
  lemma Swallows(fs: seq<Finding>, a: seq<Span>, b: seq<Span>, s: Span, t: Span, d: int)
    requires IsMerge(fs, a) && IsMerge(fs, b) && s in a && t in b
    requires 2 * s.index <= d <= 2 * SpanEnd(s) && 2 * t.index <= d <= 2 * SpanEnd(t)
    ensures t.index <= s.index && SpanEnd(s) <= SpanEnd(t)
  {
    hide SpanOf, Increasing, Inhabits;
    if s.index < t.index {
      var e := 2 * t.index - 1;
      assert SpanOk(fs, s);
      assert Covered(fs, e);
      var f :| f in fs && Covers(f, e);
      assert Housed(b, f);
      var u :| u in b && Inside(f, u);
      Apart(fs, b, t, u);
      assert false;
    }
    if SpanEnd(t) < SpanEnd(s) {
      var e := 2 * SpanEnd(t) + 1;
      assert SpanOk(fs, s);
      assert Covered(fs, e);
      var f :| f in fs && Covers(f, e);
      assert Housed(b, f);
      var u :| u in b && Inside(f, u);
      Apart(fs, b, t, u);
      assert false;
    }
  }

  /** Every span of one merge is a span of the other. */
  lemma SameSpan(fs: seq<Finding>, a: seq<Span>, b: seq<Span>, s: Span)
    requires IsMerge(fs, a) && IsMerge(fs, b) && s in a
    ensures s in b
  {
    hide SpanOf, Increasing, Inhabits;
    var d := 2 * s.index;
    assert SpanOk(fs, s);
    assert Covered(fs, d);
    var f :| f in fs && Covers(f, d);
    assert Housed(b, f);
    var t :| t in b && Inside(f, t);
    Swallows(fs, a, b, s, t, d);
    Swallows(fs, b, a, t, s, d);
    SameMembers(fs, s, t);
  }

  lemma SameMembers(fs: seq<Finding>, s: Span, t: Span)
    requires SpanOk(fs, s) && SpanOk(fs, t) && s.index == t.index && SpanEnd(s) == SpanEnd(t)
    ensures s == t
  {
    hide SpanOf, Increasing, Covered;
    forall x ensures Inhabits(fs, s, x) <==> Inhabits(fs, t, x) {}
    hide Inhabits;
    IncreasingUnique(s.detectors, t.detectors);
  }

  predicate Ascends(out: seq<Span>)
  {
    forall i, j | 0 <= i < j < |out| :: SpanEnd(out[i]) < out[j].index
  }

  lemma {:induction false} AscendingSame(a: seq<Span>, b: seq<Span>)
    requires Ascends(a) && Ascends(b) && forall s :: s in a <==> s in b
    ensures a == b
    decreases |a|
  {
    assert |b| > 0 ==> b[0] in b;
    if |a| > 0 {
      assert a[0] in a;
      SameFirst(a, b);
      forall s ensures s in a[1..] <==> s in b[1..] {
        hide Ascends;
        SpanTail(a, s);
        SpanTail(b, s);
      }
      AscendingSame(a[1..], b[1..]);
      assert a == [a[0]] + a[1..] && b == [b[0]] + b[1..];
    }
  }

  lemma SameFirst(a: seq<Span>, b: seq<Span>)
    requires Ascends(a) && Ascends(b) && |a| > 0 && |b| > 0 && forall s :: s in a <==> s in b
    ensures a[0] == b[0]
  {
    assert a[0] in b && b[0] in a;
    var i :| 0 <= i < |b| && b[i] == a[0];
    var j :| 0 <= j < |a| && a[j] == b[0];
  }

  lemma SpanTail(a: seq<Span>, s: Span)
    requires Ascends(a) && |a| > 0
    ensures s in a[1..] <==> s in a && s != a[0]
  {
    if s in a && s != a[0] {
      var i :| 0 <= i < |a| && a[i] == s;
      assert a[1..][i - 1] == s;
    }
    if s in a[1..] {
      var i :| 0 <= i < |a[1..]| && a[1..][i] == s;
      assert a[i + 1] == s;
    }
  }

  /** Findings have exactly one merge, and it does not depend on their order or repetition. */
  lemma MergeUnique(fs: seq<Finding>, gs: seq<Finding>, a: seq<Span>, b: seq<Span>)
    requires IsMerge(fs, a) && IsMerge(gs, b) && forall f :: f in fs <==> f in gs
    ensures a == b
  {
    OrderFree(gs, fs, b);
    hide IsMerge;
    forall s ensures s in a <==> s in b {
      if s in a { SameSpan(fs, a, b, s); }
      if s in b { SameSpan(fs, b, a, s); }
    }
    MergeAscends(fs, a);
    MergeAscends(fs, b);
    AscendingSame(a, b);
  }

  lemma MergeAscends(fs: seq<Finding>, a: seq<Span>)
    requires IsMerge(fs, a)
    ensures Ascends(a)
  {
  }

  lemma OrderFree(fs: seq<Finding>, gs: seq<Finding>, out: seq<Span>)
    requires IsMerge(fs, out) && forall f :: f in fs <==> f in gs
    ensures IsMerge(gs, out)
  {
    hide SpanOf, Increasing;
    forall s | s in out ensures SpanOk(gs, s) {
      assert SpanOk(fs, s);
      forall d ensures Covered(fs, d) <==> Covered(gs, d) {}
      forall x ensures Inhabits(fs, s, x) <==> Inhabits(gs, s, x) {}
    }
  }

  predicate At(f: Finding, p: nat) { f.index <= p < f.index + f.length }

  predicate SpanAt(s: Span, p: nat) { s.index <= p < s.index + s.length }

  /** A merge covers exactly the positions its findings cover. */
  lemma MergeCoversExactly(fs: seq<Finding>, out: seq<Span>, p: nat)
    requires IsMerge(fs, out)
    ensures (exists g | g in fs :: At(g, p)) <==> (exists s | s in out :: SpanAt(s, p))
  {
    hide SpanOf, Increasing, Inhabits;
    if g :| g in fs && At(g, p) {
      assert Housed(out, g);
      var s :| s in out && Inside(g, s);
      assert SpanAt(s, p);
    }
    if s :| s in out && SpanAt(s, p) {
      assert SpanOk(fs, s);
      assert Covered(fs, 2 * p + 1);
      var g :| g in fs && Covers(g, 2 * p + 1);
      assert At(g, p);
    }
  }

  /** Every finding lies inside exactly one span. */
  lemma OneSpanEach(fs: seq<Finding>, out: seq<Span>, f: Finding)
    requires IsMerge(fs, out) && f in fs
    ensures exists s | s in out :: Inside(f, s)
    ensures forall s, t | s in out && t in out && Inside(f, s) && Inside(f, t) :: s == t
  {
    assert Housed(out, f);
    hide SpanOk;
    forall s, t | s in out && t in out && Inside(f, s) && Inside(f, t) ensures s == t { Apart(fs, out, s, t); }
  }

  // ---------------------------------------------------------------------------------------
  // Merging again
  // ---------------------------------------------------------------------------------------

  /** A merged span fed back as a finding. */
  function AsFinding(s: Span): Finding
  {
    Finding(if s.detector.Some? then s.detector.value else [], s.index, s.length, Some(s.detectors))
  }

  function AsFindings(out: seq<Span>): (r: seq<Finding>)
    ensures |r| == |out| && forall i | 0 <= i < |out| :: r[i] == AsFinding(out[i])
  {
    seq(|out|, i requires 0 <= i < |out| => AsFinding(out[i]))
  }

  /** Merging a merge gives back the same spans. */
  lemma MergeIdempotent(fs: seq<Finding>, out: seq<Span>)
    requires IsMerge(fs, out)
    ensures IsMerge(AsFindings(out), out)
  {
    hide SpanOf, Increasing;
    var gs := AsFindings(out);
    forall f | f in gs ensures Housed(out, f) {
      var i :| 0 <= i < |gs| && gs[i] == f;
      assert out[i] in out && Inside(f, out[i]);
    }
    forall s | s in out ensures SpanOk(gs, s) {
      var i :| 0 <= i < |out| && out[i] == s;
      assert gs[i] == AsFinding(s) && gs[i] in gs;
      assert SpanOk(fs, s);
      hide SpanOk;
      SelfSpan(fs, out, s);
    }
  }

  lemma SelfSpan(fs: seq<Finding>, out: seq<Span>, s: Span)
    requires IsMerge(fs, out) && s in out && AsFinding(s) in AsFindings(out)
    ensures SpanOk(AsFindings(out), s)
  {
    hide SpanOf, Increasing;
    var gs := AsFindings(out);
    assert SpanOk(fs, s);
    forall d | 2 * s.index <= d <= 2 * SpanEnd(s) ensures Covered(gs, d) {
      assert Covers(AsFinding(s), d);
    }
    forall x ensures x in s.detectors <==> Inhabits(gs, s, x) {
      if x in s.detectors { assert Inside(AsFinding(s), s) && x in MembersOf(AsFinding(s)); }
      if Inhabits(gs, s, x) {
        var f :| f in gs && Inside(f, s) && x in MembersOf(f);
        var i :| 0 <= i < |gs| && gs[i] == f;
        Apart(fs, out, out[i], s);
      }
    }
  }

  // ---------------------------------------------------------------------------------------
  // The loop
  // ---------------------------------------------------------------------------------------

  predicate Before(f: Finding, g: Finding)
  {
    f.index < g.index || (f.index == g.index && f.length >= g.length)
  }

  predicate Positioned(s: seq<Finding>)
  {
    forall i, j | 0 <= i < j < |s| :: Before(s[i], s[j])
  }

  function InsertFinding(f: Finding, s: seq<Finding>): (r: seq<Finding>)
    ensures multiset(r) == multiset(s) + multiset{f}
  {
    if |s| == 0 then [f]
    else if Before(s[0], f) then
      assert s == [s[0]] + s[1..];
      [s[0]] + InsertFinding(f, s[1..])
    else [f] + s
  }

  /** The copy in order of position, longer findings first; ties keep their order. */
  function SortByPosition(fs: seq<Finding>): (r: seq<Finding>)
    ensures multiset(r) == multiset(fs)
  {
    if |fs| == 0 then []
    else
      assert fs == fs[..|fs| - 1] + [fs[|fs| - 1]];
      InsertFinding(fs[|fs| - 1], SortByPosition(fs[..|fs| - 1]))
  }

  lemma {:induction false} InsertPositioned(f: Finding, s: seq<Finding>)
    requires Positioned(s)
    ensures Positioned(InsertFinding(f, s))
  {
    if |s| > 0 {
      var t := s[1..];
      if Before(s[0], f) {
        InsertPositioned(f, t);
        var r := InsertFinding(f, t);
        forall i | 0 <= i < |r| ensures Before(s[0], r[i]) {
          assert r[i] in multiset(r);
          assert r[i] in t || r[i] == f;
        }
      } else {
        forall i | 0 <= i < |s| ensures Before(f, s[i]) {}
      }
    }
  }

  lemma {:induction false} SortPositioned(fs: seq<Finding>)
    ensures Positioned(SortByPosition(fs))
    decreases |fs|
  {
    if |fs| > 0 {
      SortPositioned(fs[..|fs| - 1]);
      InsertPositioned(fs[|fs| - 1], SortByPosition(fs[..|fs| - 1]));
    }
  }

  ghost predicate Within(f: Finding, start: nat, end: nat) { start <= f.index && End(f) <= end }

  ghost predicate Gathers(fs: seq<Finding>, start: nat, end: nat, x: Text)
  {
    exists f | f in fs :: Within(f, start, end) && x in MembersOf(f)
  }

  /** Mid-loop: finished spans, and one span still open. */
  ghost predicate Open(fs: seq<Finding>, out: seq<Span>, start: nat, end: nat, members: set<Text>)
  {
    && start <= end && Ascends(out) && (forall s | s in out :: SpanEnd(s) < start && SpanOk(fs, s))
    && (forall f | f in fs :: Housed(out, f) || Within(f, start, end))
    && (forall d | 2 * start <= d <= 2 * end :: Covered(fs, d))
    && (forall x :: x in members <==> Gathers(fs, start, end, x))
  }

  lemma Opens(f: Finding, members: set<Text>)
    requires forall x :: x in members <==> x in MembersOf(f)
    ensures Open([f], [], f.index, End(f), members)
  {
    forall d | 2 * f.index <= d <= 2 * End(f) ensures Covered([f], d) { assert f in [f] && Covers(f, d); }
    forall x ensures x in members <==> Gathers([f], f.index, End(f), x) {
      if x in members { assert f in [f] && Within(f, f.index, End(f)) && x in MembersOf(f); }
    }
  }

  /** Flushing the open span completes a merge. */
  lemma Flushes(fs: seq<Finding>, out: seq<Span>, start: nat, end: nat, members: set<Text>, ds: seq<Text>)
    requires Open(fs, out, start, end, members) && Increasing(ds) && forall x :: x in ds <==> x in members
    ensures IsMerge(fs, out + [SpanOf(ds, start, end)])
  {
    hide Increasing, FirstStrong;
    var s := SpanOf(ds, start, end);
    var r := out + [s];
    forall f | f in fs ensures Housed(r, f) {
      if Housed(out, f) {
        var t :| t in out && Inside(f, t);
        assert t in r;
      } else {
        assert s in r && Inside(f, s);
      }
    }
    assert SpanOk(fs, s) by {
      forall x ensures Inhabits(fs, s, x) <==> Gathers(fs, start, end, x) {}
    }
    forall i, j | 0 <= i < j < |r| ensures SpanEnd(r[i]) < r[j].index {
      if j == |out| { assert r[i] in out; }
    }
  }

  lemma CoveredMore(fs: seq<Finding>, f: Finding, d: int)
    ensures Covered(fs, d) || Covers(f, d) ==> Covered(fs + [f], d)
  {
    if Covered(fs, d) {
      var g :| g in fs && Covers(g, d);
      assert g in fs + [f];
    }
    assert f in fs + [f];
  }

  /** A finished span does not notice a finding that starts after its end. */
  lemma SpanOkMore(fs: seq<Finding>, f: Finding, s: Span)
    requires SpanOk(fs, s) && SpanEnd(s) < f.index
    ensures SpanOk(fs + [f], s)
  {
    hide Increasing, SpanOf;
    forall d | 2 * s.index <= d <= 2 * SpanEnd(s) ensures Covered(fs + [f], d) { CoveredMore(fs, f, d); }
    forall x ensures Inhabits(fs + [f], s, x) <==> Inhabits(fs, s, x) {
      if Inhabits(fs, s, x) {
        var g :| g in fs && Inside(g, s) && x in MembersOf(g);
        assert g in fs + [f];
      }
    }
  }

  /** The next finding overlaps or touches the open span: it joins it. */
  lemma Joins(fs: seq<Finding>, out: seq<Span>, start: nat, end: nat, members: set<Text>, f: Finding,
              end': nat, members': set<Text>)
    requires Open(fs, out, start, end, members) && start <= f.index <= end
    requires end' == if End(f) > end then End(f) else end
    requires forall x :: x in members' <==> x in members || x in MembersOf(f)
    ensures Open(fs + [f], out, start, end', members')
  {
    var gs := fs + [f];
    forall s | s in out ensures SpanEnd(s) < start && SpanOk(gs, s) {
      hide SpanOk, Covered, Gathers;
      SpanOkMore(fs, f, s);
    }
    forall d | 2 * start <= d <= 2 * end' ensures Covered(gs, d) {
      hide SpanOk, Gathers;
      CoveredMore(fs, f, d);
    }
    forall x ensures x in members' <==> Gathers(gs, start, end', x) {
      hide SpanOk, Covered;
      GathersJoined(fs, out, start, end, members, f, end', x);
    }
  }

  lemma GathersJoined(fs: seq<Finding>, out: seq<Span>, start: nat, end: nat, members: set<Text>, f: Finding,
                      end': nat, x: Text)
    requires Open(fs, out, start, end, members) && start <= f.index <= end
    requires end' == if End(f) > end then End(f) else end
    ensures Gathers(fs + [f], start, end', x) <==> x in members || x in MembersOf(f)
  {
    hide SpanOk, Covered;
    var gs := fs + [f];
    if x in members {
      var g :| g in fs && Within(g, start, end) && x in MembersOf(g);
      assert g in gs && Within(g, start, end');
    }
    if x in MembersOf(f) { assert f in gs && Within(f, start, end'); }
    if Gathers(gs, start, end', x) {
      var g :| g in gs && Within(g, start, end') && x in MembersOf(g);
      if g in fs {
        NotHoused(fs, out, start, end, members, g);
        assert Within(g, start, end);
        assert Gathers(fs, start, end, x);
      }
    }
  }

  lemma NotHoused(fs: seq<Finding>, out: seq<Span>, start: nat, end: nat, members: set<Text>, g: Finding)
    requires Open(fs, out, start, end, members) && g in fs && start <= g.index
    ensures Within(g, start, end)
  {
    hide SpanOk, Covered, Gathers;
    forall s | s in out ensures !Inside(g, s) {
      assert SpanEnd(s) < start;
    }
  }

  /** The next finding starts past the open span: the span is flushed and a new one opens. */
  lemma StartsAnew(fs: seq<Finding>, out: seq<Span>, start: nat, end: nat, members: set<Text>, ds: seq<Text>,
                   f: Finding,
                   members': set<Text>)
    requires Open(fs, out, start, end, members) && Increasing(ds) && forall x :: x in ds <==> x in members
    requires f.index > end && forall g | g in fs :: g.index <= f.index
    requires forall x :: x in members' <==> x in MembersOf(f)
    ensures Open(fs + [f], out + [SpanOf(ds, start, end)], f.index, End(f), members')
  {
    hide Increasing, SpanOf;
    Flushes(fs, out, start, end, members, ds);
    var s, gs := SpanOf(ds, start, end), fs + [f];
    var r := out + [s];
    SpanBounds(ds, start, end);
    MergeAscends(fs, r);
    forall t | t in r ensures SpanEnd(t) < f.index && SpanOk(gs, t) {
      hide SpanOk, Covered, Gathers, Housed;
      SpanOkMore(fs, f, t);
    }
    forall g | g in gs ensures Housed(r, g) || Within(g, f.index, End(f)) {}
    forall d | 2 * f.index <= d <= 2 * End(f) ensures Covered(gs, d) {
      hide SpanOk, Gathers, Housed;
      CoveredMore(fs, f, d);
    }
    forall x ensures x in members' <==> Gathers(gs, f.index, End(f), x) {
      hide SpanOk, Covered;
      GathersAnew(fs, r, end, f, x);
    }
  }

  lemma SpanBounds(ds: seq<Text>, start: nat, end: nat)
    requires start <= end
    ensures SpanOf(ds, start, end).index == start && SpanEnd(SpanOf(ds, start, end)) == end
  {
  }

  lemma GathersAnew(fs: seq<Finding>, r: seq<Span>, end: nat, f: Finding, x: Text)
    requires f.index > end && (forall s | s in r :: SpanEnd(s) <= end) && forall g | g in fs :: Housed(r, g)
    ensures Gathers(fs + [f], f.index, End(f), x) <==> x in MembersOf(f)
  {
    var gs := fs + [f];
    if x in MembersOf(f) { assert f in gs && Within(f, f.index, End(f)); }
    forall g | g in fs ensures g.index < f.index {
      assert Housed(r, g);
      var s :| s in r && Inside(g, s);
    }
  }

  /** `mergeFindingSpans`: the one merge of the findings. */
  method MergeFindingSpans(findings: seq<Finding>) returns (out: seq<Span>)
    ensures IsMerge(findings, out)
  {
    hide Increasing, SpanOf, SpanOk, Open, IsMerge, Before, Positioned, SortByPosition;
    if |findings| == 0 {
      NothingMerges();
      return [];
    }
    var sorted := SortByPosition(findings);
    SortPositioned(findings);
    assert |multiset(sorted)| == |multiset(findings)|;
    out := [];
    var start: nat := sorted[0].index;
    var end: nat := End(sorted[0]);
    var members := set d | d in MembersOf(sorted[0]);
    Opens(sorted[0], members);
    assert sorted[..1] == [sorted[0]];
    for i := 1 to |sorted|
      invariant Open(sorted[..i], out, start, end, members)
      invariant start <= sorted[i - 1].index
    {
      var f := sorted[i];
      var fEnd := End(f);
      var end0, members0 := end, members;
      assert sorted[..i + 1] == sorted[..i] + [f];
      IndexOrder(sorted, i);
      if f.index <= end {
        if fEnd > end { end := fEnd; }
        members := members + set d | d in MembersOf(f);
        Joins(sorted[..i], out, start, end0, members0, f, end, members);
      } else {
        var detectors := InOrder(members);
        OpenBounds(sorted[..i], out, start, end, members);
        members := set d | d in MembersOf(f);
        StartsAnew(sorted[..i], out, start, end, members0, detectors, f, members);
        out := out + [SpanOf(detectors, start, end)];
        start, end := f.index, fEnd;
      }
    }
    var detectors := InOrder(members);
    assert sorted[..|sorted|] == sorted;
    OpenBounds(sorted, out, start, end, members);
    Flushes(sorted, out, start, end, members, detectors);
    out := out + [SpanOf(detectors, start, end)];
    forall f ensures f in sorted <==> f in findings { assert f in multiset(sorted) <==> f in multiset(findings); }
    OrderFree(sorted, findings, out);
  }

  lemma OpenBounds(fs: seq<Finding>, out: seq<Span>, start: nat, end: nat, members: set<Text>)
    requires Open(fs, out, start, end, members)
    ensures start <= end
  {
  }

  lemma IndexOrder(sorted: seq<Finding>, i: nat)
    requires i < |sorted| && Positioned(sorted)
    ensures forall g | g in sorted[..i] :: g.index <= sorted[i].index
    ensures i > 0 ==> sorted[i - 1].index <= sorted[i].index
  {
  }

  lemma NothingMerges()
    ensures IsMerge([], [])
  {
  }
}
