/** Source precedence between findings on one key: which finding is selected, which external signal
    survives as its escalation, and the keyed merge of two lists of findings. */
module Precedence {
  import opened Wrappers
  import opened Utf16

  datatype Quality =
    | PrimaryGovaiEvidence | ProviderGenerated | CustomerAttested | NormalizedExternal | UnverifiedExternal

  datatype Action = Observe | Warn | Review | ApproveRequired | Deny

  /** `ref` stands for the object's identity. */
  datatype Finding = Finding(ref: nat, key: Text, quality: Quality, action: Action)

  datatype Reason =
    | NativePrimarySelected | ExternalEscalationPreserved | HigherQualitySelected | StricterActionSelected
    | DeterministicTie

  datatype Decision = Decision(selected: Finding, escalation: Option<Finding>, reason: Reason)

  function QualityRank(q: Quality): nat
  {
    match q
    case PrimaryGovaiEvidence => 4
    case ProviderGenerated => 3
    case CustomerAttested => 2
    case NormalizedExternal => 1
    case UnverifiedExternal => 0
  }

  function ActionRank(a: Action): nat
  {
    match a
    case Observe => 0
    case Warn => 1
    case Review => 2
    case ApproveRequired => 3
    case Deny => 4
  }

  function Rank(f: Finding): nat { ActionRank(f.action) }

  predicate Native(f: Finding) { f.quality.PrimaryGovaiEvidence? }

  /** `decideSourcePrecedence`. */
  function Decide(a: Finding, b: Finding): Decision
  {
    if Native(a) && !Native(b) then
      if Rank(b) > Rank(a) then Decision(a, Some(b), ExternalEscalationPreserved)
      else Decision(a, None, NativePrimarySelected)
    else if Native(b) && !Native(a) then
      if Rank(a) > Rank(b) then Decision(b, Some(a), ExternalEscalationPreserved)
      else Decision(b, None, NativePrimarySelected)
    else if QualityRank(a.quality) > QualityRank(b.quality) then Decision(a, None, HigherQualitySelected)
    else if QualityRank(a.quality) < QualityRank(b.quality) then Decision(b, None, HigherQualitySelected)
    else if Rank(a) > Rank(b) then Decision(a, None, StricterActionSelected)
    else if Rank(b) > Rank(a) then Decision(b, None, StricterActionSelected)
    else Decision(a, None, DeterministicTie)
  }

  /** `chooseEscalationCandidate`. */
  function ChooseEscalation(a: Finding, b: Finding): Finding
  {
    if Rank(a) != Rank(b) then (if Rank(a) > Rank(b) then a else b)
    else if QualityRank(a.quality) != QualityRank(b.quality) then
      (if QualityRank(a.quality) > QualityRank(b.quality) then a else b)
    else a
  }

  /** The update of a key's decision by one more finding. */
  function Consider(d: Decision, f: Finding): Decision
  {
    var decided := Decide(d.selected, f);
    if d.escalation.None? then decided
    else
      var prior := d.escalation.value;
      var keepPrior := prior.ref != decided.selected.ref;
      var keepCurrent := decided.escalation.Some? && decided.escalation.value.ref != decided.selected.ref;
      if keepPrior && keepCurrent then
        decided.(escalation := Some(ChooseEscalation(prior, decided.escalation.value)))
      else if keepPrior then decided.(escalation := Some(prior))
      else decided
  }

  /** The decision after all the findings of one key. */
  function Fold(fs: seq<Finding>): Decision
    requires |fs| > 0
  {
    if |fs| == 1 then Decision(fs[0], None, DeterministicTie)
    else Consider(Fold(fs[..|fs| - 1]), fs[|fs| - 1])
  }

  // ---------------------------------------------------------------------------------------
  // The selected finding
  // ---------------------------------------------------------------------------------------

  /** Higher in (quality, action). */
  predicate Better(a: Finding, b: Finding)
  {
    || QualityRank(a.quality) > QualityRank(b.quality)
    || (QualityRank(a.quality) == QualityRank(b.quality) && Rank(a) > Rank(b))
  }

  /** The `i`-th finding is the first that none betters. */
  predicate FirstBest(fs: seq<Finding>, i: nat)
  {
    && i < |fs|
    && (forall j | 0 <= j < |fs| :: !Better(fs[j], fs[i]))
    && (forall j | 0 <= j < i :: Better(fs[i], fs[j]))
  }

  lemma DecideSelects(a: Finding, b: Finding)
    ensures Decide(a, b).selected == if Better(b, a) then b else a
  {
  }

  /** The five qualities and the five actions in their order. */
  lemma RanksAscend()
    ensures QualityRank(UnverifiedExternal) < QualityRank(NormalizedExternal) < QualityRank(CustomerAttested)
            < QualityRank(ProviderGenerated) < QualityRank(PrimaryGovaiEvidence)
    ensures ActionRank(Observe) < ActionRank(Warn) < ActionRank(Review) < ActionRank(ApproveRequired) < ActionRank(Deny)
  {
  }

  /** The reason names what told the two findings apart, and an escalation is kept exactly for a stricter
      external finding beside a native one. */
  lemma DecideReasons(a: Finding, b: Finding)
    ensures var d := Decide(a, b);
            var mixed := Native(a) != Native(b);
            var outside := if Native(a) then b else a;
            && (d.reason == ExternalEscalationPreserved <==> mixed && Rank(outside) > Rank(d.selected))
            && (d.reason == NativePrimarySelected <==> mixed && Rank(outside) <= Rank(d.selected))
            && (d.reason == HigherQualitySelected <==> !mixed && a.quality != b.quality)
            && (d.reason == StricterActionSelected <==> a.quality == b.quality && a.action != b.action)
            && (d.reason == DeterministicTie <==> a.quality == b.quality && a.action == b.action)
            && d.escalation == if d.reason == ExternalEscalationPreserved then Some(outside) else None
  {
  }

  lemma ConsiderSelects(d: Decision, f: Finding)
    ensures Consider(d, f).selected == if Better(f, d.selected) then f else d.selected
  {
    DecideSelects(d.selected, f);
  }

  lemma BetterOrder(a: Finding, b: Finding, c: Finding)
    ensures !(Better(a, b) && Better(b, a))
    ensures Better(a, b) && !Better(c, b) ==> Better(a, c)
    ensures !Better(a, b) && !Better(b, c) ==> !Better(a, c)
  {
  }

  /** The selected finding of a key is the first to attain the highest (quality, action). */
  lemma {:induction false} SelectedIsFirstBest(fs: seq<Finding>) returns (i: nat)
    requires |fs| > 0
    ensures FirstBest(fs, i) && Fold(fs).selected == fs[i]
  {
    hide Better, Consider;
    if |fs| == 1 {
      i := 0;
      BetterOrder(fs[0], fs[0], fs[0]);
    } else {
      var n := |fs| - 1;
      var k := SelectedIsFirstBest(fs[..n]);
      ConsiderSelects(Fold(fs[..n]), fs[n]);
      if Better(fs[n], fs[k]) {
        i := n;
        forall j | 0 <= j < n ensures Better(fs[n], fs[j]) && !Better(fs[j], fs[n]) {
          assert fs[..n][j] == fs[j];
          BetterOrder(fs[n], fs[k], fs[j]);
          BetterOrder(fs[j], fs[n], fs[n]);
        }
        BetterOrder(fs[n], fs[n], fs[n]);
      } else {
        i := k;
        forall j | 0 <= j < |fs| ensures !Better(fs[j], fs[k]) && (j < k ==> Better(fs[k], fs[j])) {
          if j < n { assert fs[..n][j] == fs[j]; }
        }
      }
    }
  }

  /** There is only one such place. */
  lemma FirstBestUnique(fs: seq<Finding>, i: nat, j: nat)
    requires FirstBest(fs, i) && FirstBest(fs, j)
    ensures i == j
  {
    assert !Better(fs[j], fs[i]) && !Better(fs[i], fs[j]);
  }

  // ---------------------------------------------------------------------------------------
  // The escalation
  // ---------------------------------------------------------------------------------------

  /** One reference, one object. */
  predicate Coherent(fs: seq<Finding>)
  {
    forall i, j | 0 <= i < |fs| && 0 <= j < |fs| && fs[i].ref == fs[j].ref :: fs[i] == fs[j]
  }

  predicate NativeAt(fs: seq<Finding>, i: int) { 0 <= i < |fs| && Native(fs[i]) }

  /** The external findings that are stricter than what was selected when they met a native one: the
      best external so far when the first native finding arrives, and each later external when it
      arrives itself. */
  function Triggers(fs: seq<Finding>): seq<Finding>
  {
    if |fs| <= 1 then []
    else
      var prefix, f := fs[..|fs| - 1], fs[|fs| - 1];
      var s := Fold(prefix).selected;
      Triggers(prefix)
      + (if Native(s) && !Native(f) && Rank(f) > Rank(s) then [f]
         else if Native(f) && !Native(s) && Rank(s) > Rank(f) then [s] else [])
  }

  /** The first of the strictest, the more trustworthy first. */
  function Strictest(ts: seq<Finding>): Option<Finding>
  {
    if |ts| == 0 then None
    else
      var best := Strictest(ts[..|ts| - 1]);
      if best.None? then Some(ts[|ts| - 1]) else Some(ChooseEscalation(best.value, ts[|ts| - 1]))
  }

  lemma StrictestSnoc(ts: seq<Finding>, t: Finding)
    ensures Strictest(ts + [t])
         == if Strictest(ts).None? then Some(t) else Some(ChooseEscalation(Strictest(ts).value, t))
  {
    assert (ts + [t])[..|ts + [t]| - 1] == ts;
  }

  /** Higher in (action, quality). */
  predicate Beats(a: Finding, b: Finding)
  {
    || Rank(a) > Rank(b)
    || (Rank(a) == Rank(b) && QualityRank(a.quality) > QualityRank(b.quality))
  }

  /** The kept candidate is the first to attain the highest (action, quality). */
  lemma {:induction false} StrictestIsFirst(ts: seq<Finding>) returns (i: nat)
    requires |ts| > 0
    ensures i < |ts| && Strictest(ts) == Some(ts[i])
    ensures forall j | 0 <= j < |ts| :: !Beats(ts[j], ts[i])
    ensures forall j | 0 <= j < i :: Beats(ts[i], ts[j])
  {
    hide ActionRank, QualityRank;
    var n := |ts| - 1;
    if n == 0 {
      assert ts[..0] == [];
      i := 0;
    } else {
      i := StrictestIsFirst(ts[..n]);
      assert Strictest(ts) == Some(ChooseEscalation(ts[i], ts[n]));
      if Beats(ts[n], ts[i]) {
        forall j | 0 <= j < n ensures !Beats(ts[j], ts[n]) && Beats(ts[n], ts[j]) {
          assert !Beats(ts[..n][j], ts[..n][i]);
        }
        i := n;
      } else {
        forall j | 0 <= j < n ensures !Beats(ts[j], ts[i]) { assert !Beats(ts[..n][j], ts[..n][i]); }
        forall j | 0 <= j < i ensures Beats(ts[i], ts[j]) { assert Beats(ts[..n][i], ts[..n][j]); }
      }
    }
  }

  lemma {:induction false} StrictestIsMaximum(ts: seq<Finding>)
    ensures Strictest(ts).None? <==> |ts| == 0
    ensures Strictest(ts).Some? ==>
              Strictest(ts).value in ts && forall t | t in ts :: Rank(t) <= Rank(Strictest(ts).value)
  {
    hide ActionRank, QualityRank;
    if |ts| > 0 { StrictestIsMaximum(ts[..|ts| - 1]); }
  }

  lemma {:induction false} TriggersExternal(fs: seq<Finding>)
    ensures forall t | t in Triggers(fs) :: t in fs && !Native(t)
  {
    if |fs| > 1 {
      var prefix := fs[..|fs| - 1];
      TriggersExternal(prefix);
      var i := SelectedIsFirstBest(prefix);
    }
  }

  lemma {:induction false} NoTriggerWithoutNative(fs: seq<Finding>)
    requires |fs| > 0 && !Native(Fold(fs).selected)
    ensures Triggers(fs) == []
  {
    hide ActionRank;
    if |fs| > 1 {
      ConsiderSelects(Fold(fs[..|fs| - 1]), fs[|fs| - 1]);
      NoTriggerWithoutNative(fs[..|fs| - 1]);
    }
  }

  /** The escalation of a key is the strictest of its triggers, and there is one exactly when there is
      a trigger. */
  lemma {:induction false} EscalationIsStrictestTrigger(fs: seq<Finding>)
    requires |fs| > 0 && Coherent(fs)
    ensures Fold(fs).escalation == Strictest(Triggers(fs))
  {
    if |fs| == 1 {
      StrictestIsMaximum([]);
    } else {
      hide *;
      var n := |fs| - 1;
      var prefix, f := fs[..n], fs[n];
      assert fs == prefix + [f];
      CoherentPrefix(prefix, f);
      EscalationIsStrictestTrigger(prefix);
      OneMoreFinding(prefix, f);
    }
  }

  lemma OneMoreFinding(prefix: seq<Finding>, f: Finding)
    requires |prefix| > 0 && Coherent(prefix + [f]) && Fold(prefix).escalation == Strictest(Triggers(prefix))
    ensures Fold(prefix + [f]).escalation == Strictest(Triggers(prefix + [f]))
  {
    hide *;
    var d, ts := Fold(prefix), Triggers(prefix);
    FoldSnoc(prefix, f);
    SelectedIn(prefix);
    PriorEscalation(prefix);
    EscalationStep(prefix, f, d);
    TriggersSnoc(prefix, f);
    if Native(d.selected) && !Native(f) && Rank(f) > Rank(d.selected) {
      StrictestSnoc(ts, f);
    } else if Native(f) && !Native(d.selected) && Rank(d.selected) > Rank(f) {
      NoTriggerWithoutNative(prefix);
      assert Strictest(ts).None?;
      StrictestSnoc(ts, d.selected);
    } else {
      assert ts + [] == ts;
    }
  }

  lemma SelectedIn(fs: seq<Finding>)
    requires |fs| > 0
    ensures Fold(fs).selected in fs
  {
    hide Fold;
    var i := SelectedIsFirstBest(fs);
  }

  lemma CoherentPrefix(prefix: seq<Finding>, f: Finding)
    requires Coherent(prefix + [f])
    ensures Coherent(prefix)
  {
    forall i | 0 <= i < |prefix| ensures (prefix + [f])[i] == prefix[i] {}
  }

  lemma TriggersSnoc(prefix: seq<Finding>, f: Finding)
    requires |prefix| > 0
    ensures var s := Fold(prefix).selected;
            Triggers(prefix + [f])
            == Triggers(prefix)
               + (if Native(s) && !Native(f) && Rank(f) > Rank(s) then [f]
                  else if Native(f) && !Native(s) && Rank(s) > Rank(f) then [s] else [])
  {
    hide Fold, Native, Rank;
    assert (prefix + [f])[..|prefix + [f]| - 1] == prefix;
  }

  /** An escalation kept so far is an external finding of the list, beside a native selected one. */
  lemma PriorEscalation(fs: seq<Finding>)
    requires |fs| > 0 && Fold(fs).escalation == Strictest(Triggers(fs))
    ensures !Native(Fold(fs).selected) ==> Fold(fs).escalation.None?
    ensures Fold(fs).escalation.Some? ==>
              Fold(fs).escalation.value in fs && !Native(Fold(fs).escalation.value) && Native(Fold(fs).selected)
  {
    hide Fold, Triggers, Strictest, Native;
    TriggersExternal(fs);
    StrictestIsMaximum(Triggers(fs));
    if !Native(Fold(fs).selected) { NoTriggerWithoutNative(fs); }
  }

  lemma EscalationStep(prefix: seq<Finding>, f: Finding, d: Decision)
    requires |prefix| > 0 && Coherent(prefix + [f]) && d.selected in prefix
    requires d.escalation.Some? ==> d.escalation.value in prefix && !Native(d.escalation.value) && Native(d.selected)
    ensures var s := d.selected;
            Consider(d, f).escalation
            == (if Native(s) && !Native(f) && Rank(f) > Rank(s) then
                  Some(if d.escalation.Some? then ChooseEscalation(d.escalation.value, f) else f)
                else if Native(f) && !Native(s) && Rank(s) > Rank(f) then Some(s)
                else d.escalation)
  {
    hide ActionRank, ChooseEscalation;
    var fs := prefix + [f];
    assert fs[|prefix|] == f;
    forall x | x in prefix ensures x.ref == f.ref ==> x == f {
      var i :| 0 <= i < |prefix| && prefix[i] == x;
      assert fs[i] == x;
    }
    forall x, y | x in prefix && y in prefix ensures x.ref == y.ref ==> x == y {
      var i :| 0 <= i < |prefix| && prefix[i] == x;
      var j :| 0 <= j < |prefix| && prefix[j] == y;
      assert fs[i] == x && fs[j] == y;
    }
  }

  /** `i` is the place of the first native finding. */
  predicate FirstNative(fs: seq<Finding>, i: nat)
  {
    NativeAt(fs, i) && forall j | 0 <= j < i :: !Native(fs[j])
  }

  /** From the first native finding on, the selected one is native, and no stricter native was seen. */
  lemma SelectedNative(fs: seq<Finding>, i: nat)
    requires FirstNative(fs, i)
    ensures Native(Fold(fs).selected) && Fold(fs).selected in fs
    ensures forall j | NativeAt(fs, j) :: Rank(fs[j]) <= Rank(Fold(fs).selected)
  {
    var k := SelectedIsFirstBest(fs);
    assert !Better(fs[i], fs[k]);
    forall j | NativeAt(fs, j) ensures Rank(fs[j]) <= Rank(fs[k]) { assert !Better(fs[j], fs[k]); }
  }

  lemma TriggersGrow(fs: seq<Finding>, n: nat)
    requires n <= |fs|
    ensures forall t | t in Triggers(fs[..n]) :: t in Triggers(fs)
    decreases |fs|
  {
    if n == |fs| {
      assert fs[..n] == fs;
    } else if |fs| > 1 {
      assert fs[..|fs| - 1][..n] == fs[..n];
      TriggersGrow(fs[..|fs| - 1], n);
    } else {
      assert fs[..n] == [];
    }
  }

  /** An external finding after the first native one, stricter than every native one, is a trigger. */
  lemma LaterTrigger(fs: seq<Finding>, i: nat, j: nat)
    requires FirstNative(fs, i) && i < j < |fs| && !Native(fs[j])
    requires forall k | NativeAt(fs, k) :: Rank(fs[k]) < Rank(fs[j])
    ensures fs[j] in Triggers(fs)
  {
    hide *;
    var prefix, f := fs[..j], fs[j];
    assert fs[..j + 1] == prefix + [f];
    NativePrefix(fs, i, j);
    SelectedNative(prefix, i);
    var k: nat :| k < |prefix| && prefix[k] == Fold(prefix).selected;
    NativeAtPrefix(fs, j, k);
    TriggersSnoc(prefix, f);
    assert f in Triggers(prefix + [f]);
    TriggersGrow(fs, j + 1);
  }

  lemma NativePrefix(fs: seq<Finding>, i: nat, n: nat)
    requires FirstNative(fs, i) && i < n <= |fs|
    ensures FirstNative(fs[..n], i)
  {
    hide Native;
  }

  lemma NativeAtPrefix(fs: seq<Finding>, n: nat, k: nat)
    requires k < n <= |fs|
    ensures Native(fs[..n][k]) ==> NativeAt(fs, k)
  {
    hide Native;
  }

  /** The best external before the first native one, if stricter than it, is a trigger. */
  lemma PrefixTrigger(fs: seq<Finding>, i: nat)
    requires FirstNative(fs, i) && i > 0 && Rank(Fold(fs[..i]).selected) > Rank(fs[i])
    ensures Fold(fs[..i]).selected in Triggers(fs)
  {
    hide ActionRank;
    var prefix, upTo := fs[..i], fs[..i + 1];
    assert upTo[..i] == prefix && upTo[i] == fs[i];
    var k := SelectedIsFirstBest(prefix);
    assert fs[..i][k] == fs[k];
    TriggersGrow(fs, i + 1);
  }

  /** Every trigger is one of these. */
  lemma {:induction false} TriggerSource(fs: seq<Finding>, i: nat, t: Finding) returns (j: nat)
    requires FirstNative(fs, i) && t in Triggers(fs)
    ensures j < |fs| && fs[j] == t && !Native(t)
    ensures j > i || (i > 0 && t == Fold(fs[..i]).selected)
    decreases |fs|
  {
    hide ActionRank, Better;
    var n := |fs| - 1;
    var prefix, f := fs[..n], fs[n];
    var k := SelectedIsFirstBest(prefix);
    TriggersExternal(fs);
    assert fs[..n][k] == fs[k];
    if t in Triggers(prefix) {
      if i < n {
        assert FirstNative(prefix, i);
        j := TriggerSource(prefix, i, t);
        assert prefix[..i] == fs[..i] && prefix[j] == fs[j];
      } else {
        NoTriggerWithoutNative(prefix);
      }
    } else if Native(f) && !Native(fs[k]) {
      if i < n {
        SelectedNative(prefix, i);
      }
      j := k;
    } else {
      assert t == f;
      j := n;
    }
  }

  /** When some external finding is stricter than every native one, the escalation carries the highest
      external action exactly when one of that action came after the first native finding, or was the
      first of the best, by quality and then action, of those before it. */
  lemma EscalationKeepsStrictest(fs: seq<Finding>, i: nat, m: nat)
    requires Coherent(fs) && FirstNative(fs, i)
    requires m < |fs| && !Native(fs[m]) && forall j | 0 <= j < |fs| && !Native(fs[j]) :: Rank(fs[j]) <= Rank(fs[m])
    requires forall j | NativeAt(fs, j) :: Rank(fs[j]) < Rank(fs[m])
    ensures (Fold(fs).escalation.Some? && Rank(Fold(fs).escalation.value) == Rank(fs[m]))
            <==> ((exists j | i < j < |fs| :: !Native(fs[j]) && Rank(fs[j]) == Rank(fs[m]))
                  || (exists k: nat :: FirstBest(fs[..i], k) && Rank(fs[k]) == Rank(fs[m])))
  {
    hide ActionRank, QualityRank;
    if i > 0 {
      var k := SelectedIsFirstBest(fs[..i]);
      forall l: nat | FirstBest(fs[..i], l) ensures l == k && fs[l] == Fold(fs[..i]).selected {
        FirstBestUnique(fs[..i], k, l);
      }
    }
    EscalationIsStrictestTrigger(fs);
    StrictestIsMaximum(Triggers(fs));
    TriggersExternal(fs);
    forall t | t in Triggers(fs) ensures Rank(t) <= Rank(fs[m]) {
      var j := TriggerSource(fs, i, t);
    }
    if j :| i < j < |fs| && !Native(fs[j]) && Rank(fs[j]) == Rank(fs[m]) { LaterTrigger(fs, i, j); }
    if i > 0 && Rank(Fold(fs[..i]).selected) == Rank(fs[m]) { PrefixTrigger(fs, i); }
    if Fold(fs).escalation.Some? { var j := TriggerSource(fs, i, Fold(fs).escalation.value); }
  }

  /** When the first finding of a key is native, the strictest external signal is never lost. */
  lemma NativeFirstEscalates(fs: seq<Finding>, m: nat)
    requires Coherent(fs) && |fs| > 0 && Native(fs[0])
    requires m < |fs| && !Native(fs[m]) && forall j | 0 <= j < |fs| && !Native(fs[j]) :: Rank(fs[j]) <= Rank(fs[m])
    requires forall j | NativeAt(fs, j) :: Rank(fs[j]) < Rank(fs[m])
    ensures Fold(fs).escalation.Some? && Rank(Fold(fs).escalation.value) == Rank(fs[m])
  {
    EscalationKeepsStrictest(fs, 0, m);
  }

  /** It is lost when externals come first: a stricter, less trusted external gives way to a better
      sourced one before the native finding arrives. */
  lemma ExternalFirstLoses(k: Text)
    ensures var deny := Finding(0, k, UnverifiedExternal, Deny);
            var warn := Finding(1, k, NormalizedExternal, Warn);
            var native := Finding(2, k, PrimaryGovaiEvidence, Observe);
            && Fold([native, deny, warn]).escalation == Some(deny)
            && Fold([deny, warn, native]).escalation == Some(warn)
  {
    var deny := Finding(0, k, UnverifiedExternal, Deny);
    var warn := Finding(1, k, NormalizedExternal, Warn);
    var native := Finding(2, k, PrimaryGovaiEvidence, Observe);
    assert [native, deny, warn] == [native] + [deny] + [warn] && [deny, warn, native] == [deny] + [warn] + [native];
    FoldSnoc([], native);
    FoldSnoc([], deny);
    assert [] + [native] == [native] && [] + [deny] == [deny];
    FoldSnoc([native], deny);
    FoldSnoc([native] + [deny], warn);
    FoldSnoc([deny], warn);
    FoldSnoc([deny] + [warn], native);
  }

  // ---------------------------------------------------------------------------------------
  // The keyed merge
  // ---------------------------------------------------------------------------------------

  function Of(fs: seq<Finding>, k: Text): seq<Finding>
  {
    if |fs| == 0 then []
    else Of(fs[..|fs| - 1], k) + (if fs[|fs| - 1].key == k then [fs[|fs| - 1]] else [])
  }

  /** The keys in the order they were first seen. */
  function Keys(fs: seq<Finding>): (r: seq<Text>)
    ensures forall k :: k in r <==> exists i | 0 <= i < |fs| :: fs[i].key == k
    ensures forall i, j | 0 <= i < j < |r| :: r[i] != r[j]
  {
    if |fs| == 0 then []
    else
      var r := Keys(fs[..|fs| - 1]);
      assert forall i | 0 <= i < |fs| - 1 :: fs[..|fs| - 1][i] == fs[i];
      if fs[|fs| - 1].key in r then r else r + [fs[|fs| - 1].key]
  }

  lemma {:induction false} OfNothing(fs: seq<Finding>, k: Text)
    ensures Of(fs, k) == [] <==> k !in Keys(fs)
  {
    if |fs| > 0 {
      OfNothing(fs[..|fs| - 1], k);
    }
  }

  datatype Entry = Entry(key: Text, decision: Decision)

  lemma Snoc(fs: seq<Finding>, f: Finding, k: Text)
    ensures Of(fs + [f], k) == Of(fs, k) + if f.key == k then [f] else []
    ensures Keys(fs + [f]) == if f.key in Keys(fs) then Keys(fs) else Keys(fs) + [f.key]
  {
    assert (fs + [f])[..|fs + [f]| - 1] == fs;
  }

  lemma FoldSnoc(fs: seq<Finding>, f: Finding)
    ensures Fold(fs + [f]) == if |fs| == 0 then Decision(f, None, DeterministicTie) else Consider(Fold(fs), f)
  {
    assert (fs + [f])[..|fs + [f]| - 1] == fs;
  }

  /** The map and the order after some findings. */
  ghost predicate Merged(fs: seq<Finding>, order: seq<Text>, byKey: map<Text, Decision>)
  {
    && order == Keys(fs)
    && (forall k :: k in byKey <==> k in order)
    && (forall k | k in byKey :: Of(fs, k) != [] && byKey[k] == Fold(Of(fs, k)))
  }

  lemma MergedStep(fs: seq<Finding>, order: seq<Text>, byKey: map<Text, Decision>, f: Finding)
    requires Merged(fs, order, byKey)
    ensures Merged(fs + [f], if f.key in byKey then order else order + [f.key],
                   byKey[f.key := if f.key in byKey then Consider(byKey[f.key], f)
                                  else Decision(f, None, DeterministicTie)])
  {
    hide Keys, Of, Fold, Consider;
    var byKey' := byKey[f.key := if f.key in byKey then Consider(byKey[f.key], f)
                                 else Decision(f, None, DeterministicTie)];
    OfNothing(fs, f.key);
    FoldSnoc(Of(fs, f.key), f);
    forall k | k in byKey' ensures Of(fs + [f], k) != [] && byKey'[k] == Fold(Of(fs + [f], k)) {
      Snoc(fs, f, k);
      assert Of(fs, k) + [] == Of(fs, k);
    }
    Snoc(fs, f, f.key);
  }

  /** `mergeFindingsWithPrecedenceDecisions`: one entry per key, keys in first-seen order over the first
      list and then the second, each decided over all the findings of its key. */
  method MergeFindings(a: seq<Finding>, b: seq<Finding>) returns (r: seq<Entry>)
    ensures |r| == |Keys(a + b)|
    ensures forall i | 0 <= i < |r| :: r[i].key == Keys(a + b)[i] && Of(a + b, r[i].key) != []
                                       && r[i].decision == Fold(Of(a + b, r[i].key))
  {
    hide Keys, Of, Fold, Consider, Merged, Decide;
    var all := a + b;
    var order: seq<Text> := [];
    var byKey: map<Text, Decision> := map[];
    assert Merged(all[..0], order, byKey) by { MergedEmpty(all[..0]); }
    for i := 0 to |all|
      invariant Merged(all[..i], order, byKey)
    {
      var f := all[i];
      MergedStep(all[..i], order, byKey, f);
      assert all[..i + 1] == all[..i] + [f];
      if f.key !in byKey {
        byKey := byKey[f.key := Decision(f, None, DeterministicTie)];
        order := order + [f.key];
      } else {
        var existing := byKey[f.key];
        var decided := Decide(existing.selected, f);
        var merged := decided;
        if existing.escalation.Some? {
          var prior := existing.escalation.value;
          var candidates: seq<Finding> := [];
          if prior.ref != decided.selected.ref { candidates := candidates + [prior]; }
          if decided.escalation.Some? && decided.escalation.value.ref != decided.selected.ref {
            candidates := candidates + [decided.escalation.value];
          }
          if |candidates| == 2 {
            merged := decided.(escalation := Some(ChooseEscalation(candidates[0], candidates[1])));
          } else if |candidates| == 1 {
            merged := decided.(escalation := Some(candidates[0]));
          }
        }
        IsConsider(existing, f, merged);
        byKey := byKey[f.key := merged];
      }
    }
    assert all[..|all|] == all;
    MergedMeans(all, order, byKey);
    r := [];
    for i := 0 to |order|
      invariant |r| == i
      invariant forall j | 0 <= j < i :: r[j] == Entry(order[j], byKey[order[j]])
    {
      r := r + [Entry(order[i], byKey[order[i]])];
    }
  }

  lemma MergedEmpty(fs: seq<Finding>)
    requires |fs| == 0
    ensures Merged(fs, [], map[])
  {
  }

  lemma MergedMeans(fs: seq<Finding>, order: seq<Text>, byKey: map<Text, Decision>)
    requires Merged(fs, order, byKey)
    ensures order == Keys(fs)
    ensures forall i | 0 <= i < |order| ::
              order[i] in byKey && Of(fs, order[i]) != [] && byKey[order[i]] == Fold(Of(fs, order[i]))
  {
    hide Keys, Of, Fold;
    assert forall i | 0 <= i < |order| :: order[i] in order;
  }

  /** The branches of the loop body are `Consider`. */
  lemma IsConsider(existing: Decision, f: Finding, merged: Decision)
    requires var decided := Decide(existing.selected, f);
             if existing.escalation.None? then merged == decided
             else
               var prior := existing.escalation.value;
               var keepCurrent := decided.escalation.Some? && decided.escalation.value.ref != decided.selected.ref;
               if prior.ref != decided.selected.ref && keepCurrent then
                 merged == decided.(escalation := Some(ChooseEscalation(prior, decided.escalation.value)))
               else if prior.ref != decided.selected.ref then merged == decided.(escalation := Some(prior))
               else if keepCurrent then merged == decided.(escalation := decided.escalation)
               else merged == decided
    ensures merged == Consider(existing, f)
  {
    hide Decide, ChooseEscalation;
  }

  /** `strictestFinding`: quality decides before the action does. */
  method StrictestFinding(findings: seq<Finding>) returns (best: Option<Finding>)
    ensures best.None? <==> |findings| == 0
    ensures best.Some? ==> exists i: nat :: FirstBest(findings, i) && findings[i] == best.value
  {
    if |findings| == 0 { return None; }
    var cur := findings[0];
    assert findings[..1] == [findings[0]];
    for i := 1 to |findings|
      invariant cur == Fold(findings[..i]).selected
    {
      assert findings[..i + 1][..i] == findings[..i];
      ConsiderSelects(Fold(findings[..i]), findings[i]);
      DecideSelects(cur, findings[i]);
      cur := Decide(cur, findings[i]).selected;
    }
    assert findings[..|findings|] == findings;
    ghost var k := SelectedIsFirstBest(findings);
    return Some(cur);
  }

  // ---------------------------------------------------------------------------------------
  // The documented choice
  // ---------------------------------------------------------------------------------------

  predicate HighestAction(fs: seq<Finding>, i: nat)
  {
    i < |fs| && forall j | 0 <= j < |fs| :: Rank(fs[j]) <= Rank(fs[i])
  }

  predicate HighestQuality(fs: seq<Finding>, i: nat)
  {
    i < |fs| && forall j | 0 <= j < |fs| :: QualityRank(fs[j].quality) <= QualityRank(fs[i].quality)
  }

  /** Higher in (action, quality), as `strictestFinding` is documented. */
  predicate Stricter(a: Finding, b: Finding)
  {
    Rank(a) > Rank(b) || (Rank(a) == Rank(b) && QualityRank(a.quality) > QualityRank(b.quality))
  }

  predicate FirstStrictest(fs: seq<Finding>, i: nat)
  {
    && i < |fs|
    && (forall j | 0 <= j < |fs| :: !Stricter(fs[j], fs[i]))
    && (forall j | 0 <= j < i :: Stricter(fs[i], fs[j]))
  }

  /** What `strictestFinding` picks has the highest action, and is the finding its documentation names,
      exactly when some finding attains the highest quality and the highest action at once. */
  lemma StrictestAsDocumented(fs: seq<Finding>, i: nat, k: nat)
    requires FirstBest(fs, i) && FirstStrictest(fs, k)
    ensures HighestAction(fs, i) <==> exists j: nat :: HighestQuality(fs, j) && HighestAction(fs, j)
    ensures i == k <==> HighestAction(fs, i)
  {
    hide ActionRank, QualityRank;
    assert HighestQuality(fs, i) && HighestAction(fs, k);
    if j: nat :| HighestQuality(fs, j) && HighestAction(fs, j) {
      assert !Better(fs[j], fs[i]);
    }
    assert HighestAction(fs, i) ==> !Better(fs[k], fs[i]) && !Stricter(fs[i], fs[k]);
  }

  /** It is not when the most trusted finding asks for less: a native observation is picked over an
      external denial. */
  lemma QualityHidesStrictest(k: Text)
    ensures var fs := [Finding(0, k, PrimaryGovaiEvidence, Observe), Finding(1, k, NormalizedExternal, Deny)];
            FirstBest(fs, 0) && FirstStrictest(fs, 1) && !HighestAction(fs, 0)
  {
    var fs := [Finding(0, k, PrimaryGovaiEvidence, Observe), Finding(1, k, NormalizedExternal, Deny)];
    assert Rank(fs[1]) > Rank(fs[0]);
  }
}
