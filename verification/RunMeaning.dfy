/** What a recorder's runs say about its log, without reference to how they were stitched: every column
    of a run as a function of its evidence alone, every convergence event in exactly one run, and
    where one inferred run ends and the next begins (forensics/projections.py). */
module RunMeaning {
  import opened Orders
  import opened Convergence
  import opened Projection
  import opened ProjectionHistory

  // --------------------------------------------------------- one run and its evidence

  ghost function Members(es: seq<Event>): set<Event> { set e | e in es }

  /** The value of the last event that has one. */
  ghost predicate IsLastNonEmpty(x: string, of: Event -> string, es: seq<Event>) {
    if x == "" then forall i :: 0 <= i < |es| ==> of(es[i]) == ""
    else exists i :: 0 <= i < |es| && of(es[i]) == x && forall j :: i < j < |es| ==> of(es[j]) == ""
  }

  ghost predicate IsFirstNonEmpty(x: string, of: Event -> string, es: seq<Event>) {
    if x == "" then forall i :: 0 <= i < |es| ==> of(es[i]) == ""
    else exists i :: 0 <= i < |es| && of(es[i]) == x && forall j :: 0 <= j < i ==> of(es[j]) == ""
  }

  ghost predicate NoneAfter(of: Event -> map<string, string>, es: seq<Event>, i: nat, k: string) {
    forall j :: i < j < |es| ==> k !in of(es[j])
  }

  /** Each key holds what the last event that writes it wrote. */
  ghost predicate IsLastWrite(m: map<string, string>, of: Event -> map<string, string>, es: seq<Event>, k: string) {
    if k !in m then forall i :: 0 <= i < |es| ==> k !in of(es[i])
    else exists i :: 0 <= i < |es| && k in of(es[i]) && of(es[i])[k] == m[k] && NoneAfter(of, es, i, k)
  }

  ghost predicate IsLastOverride(inferred: bool, initially: bool, es: seq<Event>) {
    || (inferred == initially && NoOverrides(es))
    || exists i :: 0 <= i < |es| && !NoOverride(es[i]) && es[i].context.value.inferred == Some(inferred) &&
         forall j :: i < j < |es| ==> NoOverride(es[j])
  }

  function AccountOf(e: Event): string { e.account }

  function FieldsOf(e: Event): map<string, string> { e.fields }

  function CandidatesOf(e: Event): map<string, string> { if e.etype.ConvergenceDecision? then e.candidates else map[] }

  function RulesOf(es: seq<Event>): seq<string> {
    if es == [] then []
    else
      var e := es[|es| - 1];
      RulesOf(es[..|es| - 1]) + if e.etype.ConvergenceDecision? then e.rules else []
  }

  ghost predicate TimesOk(run: Run) {
    IsEarliest(run.started, Members(run.evidence)) && IsLatest(run.ended, Members(run.evidence))
  }

  ghost predicate TextsOk(run: Run) {
    && IsFirstNonEmpty(run.account, AccountOf, run.evidence)
    && IsLastNonEmpty(run.phase, PhaseOf, run.evidence)
    && IsLastOverride(run.inferred, run.key.Inferred?, run.evidence)
  }

  ghost predicate WritesOk(m: map<string, string>, of: Event -> map<string, string>, es: seq<Event>) {
    forall k :: IsLastWrite(m, of, es, k)
  }

  /** Every column of the row, from its evidence. */
  ghost predicate Summarises(run: Run) {
    && TimesOk(run) && TextsOk(run)
    && WritesOk(run.fields, FieldsOf, run.evidence)
    && WritesOk(run.candidates, CandidatesOf, run.evidence)
    && run.rules == RulesOf(run.evidence)
  }

  lemma {:induction false} LastNonEmptySnoc(x: string, of: Event -> string, es: seq<Event>, e: Event)
    requires IsLastNonEmpty(x, of, es)
    ensures IsLastNonEmpty(if of(e) != "" then of(e) else x, of, es + [e])
  {
    var es' := es + [e];
    if of(e) != "" {
      assert es'[|es|] == e;
    } else if x != "" {
      var i :| 0 <= i < |es| && of(es[i]) == x && forall j :: i < j < |es| ==> of(es[j]) == "";
      assert es'[i] == es[i];
    }
  }

  lemma {:induction false} FirstNonEmptySnoc(x: string, of: Event -> string, es: seq<Event>, e: Event)
    requires IsFirstNonEmpty(x, of, es)
    ensures IsFirstNonEmpty(if x == "" then of(e) else x, of, es + [e])
  {
    var es' := es + [e];
    if x != "" {
      var i :| 0 <= i < |es| && of(es[i]) == x && forall j :: 0 <= j < i ==> of(es[j]) == "";
      assert es'[i] == es[i];
    } else {
      assert es'[|es|] == e;
    }
  }

  lemma {:induction false} LastWriteSnoc(m: map<string, string>, of: Event -> map<string, string>, es: seq<Event>,
                                         e: Event, k: string)
    requires IsLastWrite(m, of, es, k)
    ensures IsLastWrite(m + of(e), of, es + [e], k)
  {
    var es' := es + [e];
    if k in of(e) {
      assert es'[|es|] == e;
    } else if k in m {
      var i :| 0 <= i < |es| && k in of(es[i]) && of(es[i])[k] == m[k] && NoneAfter(of, es, i, k);
      assert es'[i] == es[i];
    }
  }

  lemma {:induction false} LastOverrideSnoc(inferred: bool, initially: bool, es: seq<Event>, e: Event)
    requires IsLastOverride(inferred, initially, es)
    ensures IsLastOverride(if NoOverride(e) then inferred else e.context.value.inferred.value, initially, es + [e])
  {
    var es' := es + [e];
    if !NoOverride(e) {
      assert es'[|es|] == e;
    } else if !NoOverrides(es) {
      var i :| 0 <= i < |es| && !NoOverride(es[i]) && es[i].context.value.inferred == Some(inferred) &&
               forall j :: i < j < |es| ==> NoOverride(es[j]);
      assert es'[i] == es[i];
    }
  }

  lemma {:induction false} WritesSnoc(m: map<string, string>, of: Event -> map<string, string>, es: seq<Event>,
                                      e: Event)
    requires WritesOk(m, of, es)
    ensures WritesOk(m + of(e), of, es + [e])
  {
    forall k ensures IsLastWrite(m + of(e), of, es + [e], k) { LastWriteSnoc(m, of, es, e, k); }
  }

  lemma {:induction false} UpdateTimes(run: Run, e: Event)
    requires TimesOk(run)
    ensures TimesOk(UpdateRun(run, e))
  {
    assert Members(run.evidence + [e]) == Members(run.evidence) + {e};
    ExtremesStep(run.started, run.ended, Members(run.evidence), e);
  }

  lemma {:induction false} UpdateTexts(run: Run, e: Event)
    requires TextsOk(run)
    ensures TextsOk(UpdateRun(run, e))
  {
    FirstNonEmptySnoc(run.account, AccountOf, run.evidence, e);
    LastNonEmptySnoc(run.phase, PhaseOf, run.evidence, e);
    LastOverrideSnoc(run.inferred, run.key.Inferred?, run.evidence, e);
  }

  lemma {:induction false} RulesSnoc(es: seq<Event>, e: Event)
    ensures RulesOf(es + [e]) == RulesOf(es) + if e.etype.ConvergenceDecision? then e.rules else []
  {
    assert (es + [e])[..|es|] == es;
  }

  lemma {:induction false} UpdateWrites(run: Run, e: Event)
    requires WritesOk(run.fields, FieldsOf, run.evidence) && WritesOk(run.candidates, CandidatesOf, run.evidence)
    ensures WritesOk(UpdateRun(run, e).fields, FieldsOf, run.evidence + [e])
    ensures WritesOk(UpdateRun(run, e).candidates, CandidatesOf, run.evidence + [e])
  {
    WritesSnoc(run.fields, FieldsOf, run.evidence, e);
    WritesSnoc(run.candidates, CandidatesOf, run.evidence, e);
    assert run.candidates + map[] == run.candidates;
  }

  /** `update_run_from_event` keeps every column a function of the evidence. */
  lemma {:induction false} UpdateSummarises(run: Run, e: Event)
    requires Summarises(run)
    ensures Summarises(UpdateRun(run, e))
  {
    UpdateTimes(run, e);
    UpdateTexts(run, e);
    UpdateWrites(run, e);
    RulesSnoc(run.evidence, e);
  }

  lemma {:induction false} NewSummarises(key: RunKey, e: Event)
    ensures Summarises(UpdateRun(NewRun(key, e.account), e))
  {
    UpdateSummarises(NewRun(key, ""), e);
    assert UpdateRun(NewRun(key, e.account), e) == UpdateRun(NewRun(key, ""), e);
  }

  // ------------------------------------------------------------- where a run begins and ends

  /** The run would be closed right after its k-th piece of evidence. */
  predicate ClosesAt(es: seq<Event>, k: nat)
    requires k < |es|
  {
    IsTerminal(es[k], PhaseAfter(es[..k + 1]))
  }

  ghost predicate InferredOk(run: Run, opener: nat) {
    && run.evidence != [] && run.evidence[0].id == opener && !IsBare(run.evidence[0])
    && (forall k :: 0 <= k < |run.evidence| ==> !IsExplicit(run.evidence[k]))
    && (forall k :: 0 <= k < |run.evidence| - 1 ==> !ClosesAt(run.evidence, k))
  }

  ghost predicate ExplicitOk(run: Run, runId: string) {
    && run.evidence != []
    && (forall k :: 0 <= k < |run.evidence| ==>
       IsExplicit(run.evidence[k]) && run.evidence[k].context.value.runId == runId)
  }

  /** An inferred run is named by its first event, never opened by a bare epoch change, holds no explicit-run
      event and nothing after its terminal event; an explicit run holds exactly events of its id. */
  ghost predicate BelongsTogether(run: Run) {
    && run.phase == PhaseAfter(run.evidence)
    && match run.key
       case Inferred(opener) => InferredOk(run, opener)
       case Explicit(runId) => ExplicitOk(run, runId)
  }

  /** Its last piece of evidence did not close the run. */
  ghost predicate StillOpen(run: Run) { run.evidence != [] && !IsTerminal(Last(run.evidence), run.phase) }

  ghost predicate RunClosed(run: Run) { run.evidence != [] && IsTerminal(Last(run.evidence), run.phase) }

  ghost predicate RunMeans(run: Run) { Summarises(run) && BelongsTogether(run) }

  lemma {:induction false} ClosesAtSnoc(es: seq<Event>, e: Event, k: nat)
    requires k < |es|
    ensures ClosesAt(es + [e], k) <==> ClosesAt(es, k)
  {
    assert (es + [e])[..k + 1] == es[..k + 1];
  }

  /** The event may go to this run. */
  ghost predicate Admits(run: Run, e: Event) {
    match run.key
    case Inferred(_) => !IsExplicit(e) && StillOpen(run)
    case Explicit(runId) => IsExplicit(e) && e.context.value.runId == runId
  }

  lemma {:induction false} UpdateBelongs(run: Run, e: Event)
    requires BelongsTogether(run) && Admits(run, e)
    ensures BelongsTogether(UpdateRun(run, e))
  {
    var es := run.evidence;
    PhaseAfterSnoc(es, e);
    assert es[..|es|] == es;
    if run.key.Inferred? {
      forall k | 0 <= k < |es| ensures !ClosesAt(es + [e], k) { ClosesAtSnoc(es, e, k); }
    }
  }

  lemma {:induction false} UpdateMeans(run: Run, e: Event)
    requires RunMeans(run) && Admits(run, e)
    ensures RunMeans(UpdateRun(run, e))
  {
    UpdateSummarises(run, e);
    UpdateBelongs(run, e);
  }

  lemma {:induction false} NewMeans(key: RunKey, e: Event)
    requires if key.Inferred? then key.opener == e.id && !IsExplicit(e) && !IsBare(e)
             else IsExplicit(e) && e.context.value.runId == key.runId
    ensures RunMeans(UpdateRun(NewRun(key, e.account), e))
  {
    NewSummarises(key, e);
    PhaseAfterSnoc([], e);
    assert [] + [e] == [e];
  }

  // -------------------------------------------------------------------------- the whole log

  /** Is the event evidence, given whether a run is in flight? */
  predicate Keeps(e: Event, open: bool) { Touches(e) && (!IsBare(e) || open) }

  /** The events of the log that are evidence: all that touch convergence, except bare epoch changes that
      arrive while no run is in flight. */
  function Kept(es: seq<Event>): seq<Event> {
    if es == [] then []
    else
      var n := |es| - 1;
      if Keeps(es[n], CurrentRun(es[..n]) != []) then Kept(es[..n]) + [es[n]] else Kept(es[..n])
  }

  function AllEvidence(runs: seq<Run>): seq<Event> {
    if runs == [] then [] else AllEvidence(runs[..|runs| - 1]) + runs[|runs| - 1].evidence
  }

  lemma {:induction false} AllEvidenceSnoc(runs: seq<Run>, run: Run)
    ensures AllEvidence(runs + [run]) == AllEvidence(runs) + run.evidence
  {
    assert (runs + [run])[..|runs|] == runs;
  }

  lemma {:induction false} ConcatAssoc(a: seq<Event>, b: seq<Event>, e: Event)
    ensures a + (b + [e]) == a + b + [e]
  {
  }

  lemma {:induction false} AllEvidenceUpdate(runs: seq<Run>, i: nat, run: Run, e: Event)
    requires i < |runs| && run.evidence == runs[i].evidence + [e]
    ensures multiset(AllEvidence(runs[i := run])) == multiset(AllEvidence(runs)) + multiset{e}
    ensures i == |runs| - 1 ==> AllEvidence(runs[i := run]) == AllEvidence(runs) + [e]
  {
    var n := |runs| - 1;
    if i == n {
      assert runs[i := run][..n] == runs[..n];
      ConcatAssoc(AllEvidence(runs[..n]), runs[i].evidence, e);
    } else {
      AllEvidenceUpdate(runs[..n], i, run, e);
      AllEvidenceLast(runs, i, run);
    }
  }

  lemma {:induction false} AllEvidenceLast(runs: seq<Run>, i: nat, run: Run)
    requires i < |runs| - 1
    ensures AllEvidence(runs[i := run]) == AllEvidence(runs[..|runs| - 1][i := run]) + runs[|runs| - 1].evidence
  {
    assert runs[i := run][..|runs| - 1] == runs[..|runs| - 1][i := run];
  }

  ghost predicate TookLast(run: Run, kept: seq<Event>) {
    run.key.Inferred? && run.evidence != [] && kept != [] && Last(run.evidence) == Last(kept)
  }

  /** The open run, if any, is inferred, took the last piece of evidence, and that piece did not close it. No run
      is open only if there is no evidence yet, or its last piece named an explicit run or closed its run. */
  ghost predicate OpenOk(r: Recorder, kept: seq<Event>) {
    if r.active.Some? then
      r.active.value < |r.runs| && TookLast(r.runs[r.active.value], kept) && StillOpen(r.runs[r.active.value])
    else
      kept == [] || IsExplicit(Last(kept)) ||
        exists i :: 0 <= i < |r.runs| && TookLast(r.runs[i], kept) && RunClosed(r.runs[i])
  }

  /** One row for each explicit run id. */
  ghost predicate DistinctRunIds(runs: seq<Run>) {
    forall i, j :: 0 <= i < j < |runs| && runs[i].key.Explicit? ==> runs[i].key != runs[j].key
  }

  ghost predicate AllMean(runs: seq<Run>) { forall i :: 0 <= i < |runs| ==> RunMeans(runs[i]) }

  ghost predicate SameEvidence(runs: seq<Run>, kept: seq<Event>) { multiset(AllEvidence(runs)) == multiset(kept) }

  ghost predicate LogMeans(r: Recorder, kept: seq<Event>) {
    AllMean(r.runs) && DistinctRunIds(r.runs) && SameEvidence(r.runs, kept) && OpenOk(r, kept)
  }

  lemma {:induction false} KeptLast(es: seq<Event>)
    requires es != []
    ensures var n := |es| - 1;
      Kept(es) == if Keeps(es[n], Replay(es[..n]).active.Some?) then Kept(es[..n]) + [es[n]] else Kept(es[..n])
  {
    ReplayOpenIs(es[..|es| - 1]);
  }

  /** The row an event that is evidence goes to: an index, `|runs|` for a new row, and its key. */
  function Target(r: Recorder, e: Event): (nat, RunKey)
    requires r.Valid()
  {
    if IsExplicit(e) then
      var key := Explicit(e.context.value.runId);
      (Find(r.runs, key), key)
    else if r.active.Some? then (r.active.value, r.runs[r.active.value].key)
    else (|r.runs|, Inferred(e.id))
  }

  lemma {:induction false} StepIsUpsert(r: Recorder, e: Event)
    requires r.Valid() && Keeps(e, r.active.Some?)
    ensures var (i, key) := Target(r, e);
      i <= |r.runs| && Step(r, e).runs == Upsert(r.runs, i, NewRun(key, e.account), e)
  {
  }

  /** One upsert takes exactly one more piece of evidence. */
  lemma {:induction false} UpsertEvidence(runs: seq<Run>, i: nat, key: RunKey, e: Event)
    requires i <= |runs|
    ensures var runs' := Upsert(runs, i, NewRun(key, e.account), e);
      && multiset(AllEvidence(runs')) == multiset(AllEvidence(runs)) + multiset{e}
      && (i >= |runs| - 1 ==> AllEvidence(runs') == AllEvidence(runs) + [e])
  {
    if i < |runs| {
      AllEvidenceUpdate(runs, i, UpdateRun(runs[i], e), e);
    } else {
      AllEvidenceSnoc(runs, UpdateRun(NewRun(key, e.account), e));
    }
  }

  lemma {:induction false} StepEvidence(r: Recorder, e: Event, kept: seq<Event>)
    requires r.Valid() && Keeps(e, r.active.Some?) && SameEvidence(r.runs, kept)
    ensures SameEvidence(Step(r, e).runs, kept + [e])
  {
    StepIsUpsert(r, e);
    var (i, key) := Target(r, e);
    UpsertEvidence(r.runs, i, key, e);
  }

  lemma {:induction false} StepRunIds(r: Recorder, e: Event)
    requires r.Valid() && Keeps(e, r.active.Some?) && DistinctRunIds(r.runs)
    ensures DistinctRunIds(Step(r, e).runs)
  {
    StepIsUpsert(r, e);
  }

  lemma {:induction false} StepOpen(r: Recorder, e: Event, kept: seq<Event>)
    requires r.Valid() && Keeps(e, r.active.Some?) && (r.active.Some? ==> r.runs[r.active.value].key.Inferred?)
    ensures OpenOk(Step(r, e), kept + [e])
  {
    assert Last(kept + [e]) == e;
    if !IsExplicit(e) {
      var i := if r.active.Some? then r.active.value else |r.runs|;
      assert TookLast(Step(r, e).runs[i], kept + [e]);
    }
  }

  lemma {:induction false} TouchedRunMeans(r: Recorder, e: Event, i: nat, key: RunKey)
    requires r.Valid() && Keeps(e, r.active.Some?) && (i, key) == Target(r, e) && i <= |r.runs|
    requires i < |r.runs| ==> RunMeans(r.runs[i])
    requires r.active.Some? ==> r.runs[r.active.value].key.Inferred? && StillOpen(r.runs[r.active.value])
    ensures i < |r.runs| ==> RunMeans(UpdateRun(r.runs[i], e))
    ensures i == |r.runs| ==> RunMeans(UpdateRun(NewRun(key, e.account), e))
  {
    if i < |r.runs| { UpdateMeans(r.runs[i], e); } else { NewMeans(key, e); }
  }

  lemma {:induction false} StepRunsMean(r: Recorder, e: Event)
    requires r.Valid() && Keeps(e, r.active.Some?) && AllMean(r.runs)
    requires r.active.Some? ==> r.runs[r.active.value].key.Inferred? && StillOpen(r.runs[r.active.value])
    ensures AllMean(Step(r, e).runs)
  {
    StepIsUpsert(r, e);
    var (i, key) := Target(r, e);
    if i < |r.runs| { assert RunMeans(r.runs[i]); }
    TouchedRunMeans(r, e, i, key);
    UpsertAllMean(r.runs, i, NewRun(key, e.account), e);
  }

  lemma {:induction false} UpsertAllMean(runs: seq<Run>, i: nat, blank: Run, e: Event)
    requires AllMean(runs) && i <= |runs|
    requires RunMeans(UpdateRun(if i < |runs| then runs[i] else blank, e))
    ensures AllMean(Upsert(runs, i, blank, e))
  {
    var runs' := Upsert(runs, i, blank, e);
    forall j | 0 <= j < |runs'| ensures RunMeans(runs'[j]) {
      if j != i { assert runs'[j] == runs[j] && RunMeans(runs[j]); }
    }
  }

  lemma {:induction false} StepMeans(r: Recorder, e: Event, kept: seq<Event>)
    requires r.Valid() && Keeps(e, r.active.Some?) && LogMeans(r, kept)
    ensures LogMeans(Step(r, e), kept + [e])
  {
    StepRunsMean(r, e);
    StepRunIds(r, e);
    StepEvidence(r, e, kept);
    StepOpen(r, e, kept);
  }

  lemma {:induction false} StepSkips(r: Recorder, e: Event)
    requires r.Valid() && !Keeps(e, r.active.Some?)
    ensures Step(r, e) == r
  {
  }

  /** EVERY REPLAY, in any order and with explicit runs mixed in: each row is a function of its evidence, every
      kept event is evidence of exactly one run, run boundaries fall exactly at terminal events and
      explicit-run events, and the live state is open exactly between them. */
  lemma {:induction false} ReplayMeans(es: seq<Event>)
    ensures LogMeans(Replay(es), Kept(es))
  {
    if es != [] {
      var n := |es| - 1;
      var r, e := Replay(es[..n]), es[n];
      ReplayMeans(es[..n]);
      KeptLast(es);
      ReplaySnoc(es);
      if Keeps(e, r.active.Some?) { StepMeans(r, e, Kept(es[..n])); } else { StepSkips(r, e); }
    }
  }

  ghost predicate Tiles(r: Recorder, kept: seq<Event>) {
    AllEvidence(r.runs) == kept && OpenIsLast(r) && OthersClosed(r)
  }

  ghost predicate OpenIsLast(r: Recorder) { r.active.Some? ==> r.active.value == |r.runs| - 1 }

  ghost predicate OthersClosed(r: Recorder) {
    forall i :: 0 <= i < |r.runs| && r.active != Some(i) ==> RunClosed(r.runs[i])
  }

  lemma {:induction false} StepTiles(r: Recorder, e: Event, kept: seq<Event>)
    requires r.Valid() && Keeps(e, r.active.Some?) && !IsExplicit(e) && Tiles(r, kept)
    ensures Tiles(Step(r, e), kept + [e])
  {
    StepExtends(r, e, kept);
    StepKeepsClosed(r, e);
  }

  lemma {:induction false} StepExtends(r: Recorder, e: Event, kept: seq<Event>)
    requires r.Valid() && Keeps(e, r.active.Some?) && !IsExplicit(e) && OpenIsLast(r) && AllEvidence(r.runs) == kept
    ensures AllEvidence(Step(r, e).runs) == kept + [e]
  {
    StepIsUpsert(r, e);
    var (i, key) := Target(r, e);
    UpsertEvidence(r.runs, i, key, e);
  }

  lemma {:induction false} StepKeepsClosed(r: Recorder, e: Event)
    requires r.Valid() && Keeps(e, r.active.Some?) && !IsExplicit(e) && OpenIsLast(r) && OthersClosed(r)
    ensures OpenIsLast(Step(r, e)) && OthersClosed(Step(r, e))
  {
    StepCloses(r, e, if r.active.Some? then r.active.value else |r.runs|);
  }

  lemma {:induction false} StepCloses(r: Recorder, e: Event, i: nat)
    requires r.Valid() && Keeps(e, r.active.Some?) && !IsExplicit(e)
    requires i == if r.active.Some? then r.active.value else |r.runs|
    ensures var r' := Step(r, e);
      && i < |r'.runs| && (r'.active == Some(i) || (r'.active.None? && RunClosed(r'.runs[i])))
      && (forall j :: 0 <= j < |r'.runs| && j != i ==> j < |r.runs| && r'.runs[j] == r.runs[j])
  {
    assert Last(Step(r, e).runs[i].evidence) == e;
  }

  lemma {:induction false} NoExplicitPrefix(es: seq<Event>, n: nat)
    requires NoExplicit(es) && n < |es|
    ensures NoExplicit(es[..n]) && !IsExplicit(es[n])
  {
    assert es[n] in es;
  }

  /** WITHOUT RUN IDS the runs, laid end to end, are the kept log itself, and every run but the open one ends
      at its terminal event. */
  lemma {:induction false} RunIdFreeRunsTile(es: seq<Event>)
    requires NoExplicit(es)
    ensures Tiles(Replay(es), Kept(es))
  {
    if es != [] {
      var n := |es| - 1;
      var r, e := Replay(es[..n]), es[n];
      NoExplicitPrefix(es, n);
      RunIdFreeRunsTile(es[..n]);
      KeptLast(es);
      ReplaySnoc(es);
      if Keeps(e, r.active.Some?) { StepTiles(r, e, Kept(es[..n])); } else { StepSkips(r, e); }
    }
  }

  // --------------------------------------------------------------- the laws, on event columns

  /** The phase an event reports: the first non-empty of its kind's phase, its context's phase, the phase its type
      implies, and its outcome. */
  ghost predicate Reports(e: Event, p: string) {
    if e.kindPhase != "" then p == e.kindPhase
    else if e.context.Some? && e.context.value.phase != "" then p == e.context.value.phase
    else if e.etype.ConvergenceDecision? then p == if e.selectsBranch then "selected" else "decision"
    else if e.etype.EpochStateChanged? && e.newState != "" then p == e.newState
    else p == e.outcome
  }

  /** The phase a run shows after its k-th piece of evidence: that of the last one that reports any. */
  ghost predicate ShowsAt(es: seq<Event>, k: nat, p: string)
    requires k < |es|
  {
    if p == "" then forall i :: 0 <= i <= k ==> Reports(es[i], "")
    else exists i :: 0 <= i <= k && Reports(es[i], p) && forall j :: i < j <= k ==> Reports(es[j], "")
  }

  /** The k-th piece of evidence closes its run: an epoch change to one of four states, or a run state when the run
      then shows one of five phases. */
  ghost predicate ClosesRun(es: seq<Event>, k: nat)
    requires k < |es|
  {
    || (es[k].etype.EpochStateChanged? && es[k].newState in {"committed", "failed", "stable", "unrecoverable"})
    || (es[k].etype.ConvergenceRunState? && ShowsClosing(es, k))
  }

  ghost predicate ShowsClosing(es: seq<Event>, k: nat)
    requires k < |es|
  {
    exists p :: p in {"applied", "blocked", "failed", "stable", "unrecoverable"} && ShowsAt(es, k, p)
  }

  lemma {:induction false} ReportsMeans(e: Event, p: string)
    ensures Reports(e, p) <==> p == PhaseOf(e)
  {
    assert |"selected"| > 0 && |"decision"| > 0;
  }

  lemma {:induction false} ShowsMeans(es: seq<Event>, k: nat, p: string)
    requires k < |es|
    ensures ShowsAt(es, k, p) <==> p == PhaseAfter(es[..k + 1])
  {
    PhaseAfterSnoc(es[..k], es[k]);
    assert es[..k + 1] == es[..k] + [es[k]];
    ReportsMeans(es[k], p);
    ReportsMeans(es[k], "");
    if k == 0 {
      assert es[..0] == [];
    } else {
      ShowsMeans(es, k - 1, p);
      ShowsStep(es, k, p);
    }
  }

  lemma {:induction false} ShowsStep(es: seq<Event>, k: nat, p: string)
    requires 0 < k < |es|
    ensures ShowsAt(es, k, p) <==> if Reports(es[k], "") then ShowsAt(es, k - 1, p) else p != "" && Reports(es[k], p)
  {
    if Reports(es[k], "") {
      ReportsMeans(es[k], p);
      ReportsMeans(es[k], "");
      if p != "" && ShowsAt(es, k, p) {
        var i :| 0 <= i <= k && Reports(es[i], p) && forall j :: i < j <= k ==> Reports(es[j], "");
        assert i < k;
      }
    } else if p != "" && ShowsAt(es, k, p) {
      var i :| 0 <= i <= k && Reports(es[i], p) && forall j :: i < j <= k ==> Reports(es[j], "");
      assert i == k;
    }
  }

  /** The machine closes a run exactly where the columns say so. */
  lemma {:induction false} ClosesMeans(es: seq<Event>, k: nat)
    requires k < |es|
    ensures ClosesAt(es, k) <==> ClosesRun(es, k)
  {
    ShowsMeans(es, k, PhaseAfter(es[..k + 1]));
    if ShowsClosing(es, k) {
      var p :| p in {"applied", "blocked", "failed", "stable", "unrecoverable"} && ShowsAt(es, k, p);
      ShowsMeans(es, k, p);
    }
  }

  /** Which events are evidence: any of a convergence type or with a convergence context, and an epoch change while a
      run is open, as long as the event names its engine. */
  ghost predicate IsEvidence(e: Event, open: bool) {
    && e.engine != ""
    && (|| e.etype.ConvergenceRunState? || e.etype.ConvergenceDecision? || e.context.Some?
        || (e.etype.EpochStateChanged? && open))
  }

  lemma {:induction false} KeptMeans(es: seq<Event>)
    requires es != []
    ensures var n := |es| - 1;
      Kept(es) == Kept(es[..n]) + if IsEvidence(es[n], Replay(es[..n]).active.Some?) then [es[n]] else []
  {
    KeptLast(es);
    var n := |es| - 1;
    assert Kept(es[..n]) + [] == Kept(es[..n]);
  }

  /** No inferred run takes evidence after the piece that closes it. */
  ghost predicate StopsAtClose(run: Run) {
    run.key.Inferred? ==> forall k :: 0 <= k < |run.evidence| - 1 ==> !ClosesRun(run.evidence, k)
  }

  ghost predicate ClosesAtEnd(run: Run) { run.evidence != [] && ClosesRun(run.evidence, |run.evidence| - 1) }

  lemma {:induction false} EndMeans(run: Run)
    requires RunMeans(run)
    ensures run.evidence != [] && (RunClosed(run) <==> ClosesAtEnd(run)) && (StillOpen(run) <==> !ClosesAtEnd(run))
    ensures ShowsAt(run.evidence, |run.evidence| - 1, run.phase)
    ensures StopsAtClose(run)
  {
    var es := run.evidence;
    var n := |es| - 1;
    assert es[..n + 1] == es;
    ShowsMeans(es, n, run.phase);
    ClosesMeans(es, n);
    if run.key.Inferred? {
      forall k | 0 <= k < n ensures !ClosesRun(es, k) { ClosesMeans(es, k); }
    }
  }

  /** When a run is open: it took the last piece of evidence, which did not close it. When none is: there is no
      evidence yet, or its last piece named a run or closed the run it went to. */
  ghost predicate OpenByColumns(r: Recorder, kept: seq<Event>) {
    if r.active.Some? then
      r.active.value < |r.runs| && TookLast(r.runs[r.active.value], kept) && !ClosesAtEnd(r.runs[r.active.value])
    else
      || kept == [] || (Last(kept).context.Some? && Last(kept).context.value.runId != "")
      || exists i :: 0 <= i < |r.runs| && TookLast(r.runs[i], kept) && ClosesAtEnd(r.runs[i])
  }

  /** THE BOUNDARY LAW, for every log in any order: every run shows the phase its evidence reported last, no inferred
      run continues past its close, and a run is open exactly while its last evidence does not close it
      and nothing named a run since. */
  lemma {:induction false} BoundaryLaw(es: seq<Event>)
    ensures var r := Replay(es);
      && (forall i :: 0 <= i < |r.runs| ==>
            && r.runs[i].evidence != [] && StopsAtClose(r.runs[i])
            && ShowsAt(r.runs[i].evidence, |r.runs[i].evidence| - 1, r.runs[i].phase))
      && OpenByColumns(r, Kept(es))
  {
    ReplayMeans(es);
    var r := Replay(es);
    forall i | 0 <= i < |r.runs|
      ensures r.runs[i].evidence != [] && StopsAtClose(r.runs[i])
      ensures ShowsAt(r.runs[i].evidence, |r.runs[i].evidence| - 1, r.runs[i].phase)
      ensures RunClosed(r.runs[i]) <==> ClosesAtEnd(r.runs[i])
      ensures StillOpen(r.runs[i]) <==> !ClosesAtEnd(r.runs[i])
    {
      assert RunMeans(r.runs[i]);
      EndMeans(r.runs[i]);
    }
  }

  /** Without run ids only a close separates two runs, and the last one is open unless it closed. */
  lemma {:induction false} RunIdFreeBoundaries(es: seq<Event>)
    requires NoExplicit(es)
    ensures var r := Replay(es);
      && (forall i :: 0 <= i < |r.runs| - 1 ==> ClosesAtEnd(r.runs[i]))
      && (r.runs != [] ==> (r.active.Some? <==> !ClosesAtEnd(r.runs[|r.runs| - 1])))
  {
    ReplayMeans(es);
    RunIdFreeRunsTile(es);
    var r := Replay(es);
    forall i | 0 <= i < |r.runs|
      ensures RunClosed(r.runs[i]) <==> ClosesAtEnd(r.runs[i])
      ensures StillOpen(r.runs[i]) <==> !ClosesAtEnd(r.runs[i])
    {
      assert RunMeans(r.runs[i]);
      EndMeans(r.runs[i]);
    }
  }

  /** EVERY PERSISTED RUN: after any history of uploads and rebuilds without run ids, whichever path each upload
      took, a recorder's rows laid end to end are its kept log in chronological order, each row is the
      function of its evidence, and every row but the last ends at its terminal event. */
  lemma {:induction false} PersistedRunsMean(actions: seq<Action>, engine: string)
    requires WellFormed(actions) && FreeOfRunIds(actions)
    ensures var runs := RunsAt(Live(actions).rows, engine);
      && AllMean(runs)
      && AllEvidence(runs) == Kept(TouchLog(Live(actions).log, engine))
      && (forall i :: 0 <= i < |runs| ==> StopsAtClose(runs[i]))
      && forall i :: 0 <= i < |runs| - 1 ==> ClosesAtEnd(runs[i])
  {
    var log := Live(actions).log;
    RunIdFreeHistory(actions);
    RunIdFreeIsSafe(actions);
    assert RunsMatchAt(Live(actions).rows, log, engine);
    RebuildRuns(log, engine);
    TouchLogMembers(log, engine);
    ReplayMeans(TouchLog(log, engine));
    BoundaryLaw(TouchLog(log, engine));
    RunIdFreeRunsTile(TouchLog(log, engine));
    RunIdFreeBoundaries(TouchLog(log, engine));
  }
}
