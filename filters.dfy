/**
 * The filter engine (main.py lines 54-64): years, then experience labels, then the
 * remote-work category, each a boolean-mask selection on the labeled table.
 */
module Filters {
  import opened Wrappers
  import opened Records
  import opened Selection

  /** The remote-work options of the sidebar select box. */
  const AllRemote := "Todos"
  const FullyRemote := "100% Remoto"
  const Hybrid := "Híbrido"
  const OnSite := "Presencial"

  /**
   * The sidebar's choices: the selected years, the selected experience labels (pandas' `isin`
   * matches a missing label against a selected missing label, so a label is an Option) and
   * the selected remote-work option.
   */
  datatype Criteria = Criteria(years: set<int>, levels: set<Option<string>>, remote: string)

  /** The mask `df['work_year'].isin(anos)`. */
  function InYears(years: set<int>): LabeledRecord -> bool
  {
    (x: LabeledRecord) => x.rec.workYear in years
  }

  /** The mask `df['experience_level_pt'].isin(niveis)`. */
  function InLevels(levels: set<Option<string>>): LabeledRecord -> bool
  {
    (x: LabeledRecord) => x.experienceLevelPt in levels
  }

  predicate IsFullyRemote(x: LabeledRecord) { x.rec.remoteRatio == 100 }
  predicate IsHybrid(x: LabeledRecord) { x.rec.remoteRatio > 0 && x.rec.remoteRatio < 100 }
  predicate IsOnSite(x: LabeledRecord) { x.rec.remoteRatio == 0 }

  /** Line 54: the rows whose year is selected. */
  function FilterYears(t: seq<LabeledRecord>, years: set<int>): (r: seq<LabeledRecord>)
    ensures forall x :: x in r <==> x in t && x.rec.workYear in years
  {
    SelectMembers(t, InYears(years));
    Select(t, InYears(years))
  }

  /** Line 55: the rows whose experience label is selected. */
  function FilterLevels(t: seq<LabeledRecord>, levels: set<Option<string>>): (r: seq<LabeledRecord>)
    ensures forall x :: x in r <==> x in t && x.experienceLevelPt in levels
  {
    SelectMembers(t, InLevels(levels));
    Select(t, InLevels(levels))
  }

  /**
   * Lines 58-64: the if/elif chain on the remote option; an option it does not name keeps every
   * row. A row stays exactly when the option admits its remote ratio.
   */
  function FilterRemote(t: seq<LabeledRecord>, remote: string): (r: seq<LabeledRecord>)
    ensures forall x :: x in r <==> x in t && RemoteAdmits(remote, x.rec.remoteRatio)
  {
    if remote != AllRemote then
      if remote == FullyRemote then SelectMembers(t, IsFullyRemote); Select(t, IsFullyRemote)
      else if remote == Hybrid then SelectMembers(t, IsHybrid); Select(t, IsHybrid)
      else if remote == OnSite then SelectMembers(t, IsOnSite); Select(t, IsOnSite)
      else t
    else t
  }

  /** The filtered view `filtro_df` after line 64: the rows that meet all three criteria. */
  function FilterView(t: seq<LabeledRecord>, c: Criteria): (r: seq<LabeledRecord>)
    ensures forall x :: x in r <==> x in t && Matches(c, x)
  {
    FilterRemote(FilterLevels(FilterYears(t, c.years), c.levels), c.remote)
  }

  /** Which remote ratios a remote-work option admits. */
  predicate RemoteAdmits(remote: string, ratio: int)
  {
    match remote
    case "100% Remoto" => ratio == 100
    case "Híbrido" => 0 < ratio < 100
    case "Presencial" => ratio == 0
    case _ => true
  }

  /** A row satisfies all three criteria at once. */
  predicate Matches(c: Criteria, x: LabeledRecord)
  {
    x.rec.workYear in c.years && x.experienceLevelPt in c.levels && RemoteAdmits(c.remote, x.rec.remoteRatio)
  }

  function MatchesMask(c: Criteria): LabeledRecord -> bool
  {
    (x: LabeledRecord) => Matches(c, x)
  }

  function AdmitsMask(remote: string): LabeledRecord -> bool
  {
    (x: LabeledRecord) => RemoteAdmits(remote, x.rec.remoteRatio)
  }

  /** The remote step keeps exactly the rows whose ratio the option admits. */
  lemma FilterRemoteAdmits(t: seq<LabeledRecord>, remote: string)
    ensures FilterRemote(t, remote) == Select(t, AdmitsMask(remote))
  {
    if remote == FullyRemote {
      SelectSameMask(t, IsFullyRemote, AdmitsMask(remote));
    } else if remote == Hybrid {
      SelectSameMask(t, IsHybrid, AdmitsMask(remote));
    } else if remote == OnSite {
      SelectSameMask(t, IsOnSite, AdmitsMask(remote));
    } else {
      SelectAll(t, AdmitsMask(remote));
    }
  }

  /** The three steps in the source's order select exactly the rows that meet all criteria. */
  lemma FilterViewIsConjunction(t: seq<LabeledRecord>, c: Criteria)
    ensures FilterView(t, c) == Select(t, MatchesMask(c))
  {
    var yearsAndLevels := (x: LabeledRecord) => InYears(c.years)(x) && InLevels(c.levels)(x);
    SelectOfSelect(t, InYears(c.years), InLevels(c.levels), yearsAndLevels);
    FilterRemoteAdmits(FilterLevels(FilterYears(t, c.years), c.levels), c.remote);
    SelectOfSelect(t, yearsAndLevels, AdmitsMask(c.remote), MatchesMask(c));
  }

  /**
   * Every row of the view comes unchanged from the table, in the table's order, and the view
   * holds exactly the rows whose year and experience label are selected and whose remote ratio
   * the remote option admits.
   */
  lemma FilterViewKeepsRows(t: seq<LabeledRecord>, c: Criteria)
    ensures SubsequenceAt(FilterView(t, c), t, KeptIndices(t, MatchesMask(c)))
    ensures forall i :: 0 <= i < |t| ==> (i in KeptIndices(t, MatchesMask(c)) <==> Matches(c, t[i]))
    ensures forall x :: x in FilterView(t, c) <==> x in t && Matches(c, x)
  {
    FilterViewIsConjunction(t, c);
    SelectKeepsOrder(t, MatchesMask(c));
    forall x ensures x in FilterView(t, c) <==> x in t && Matches(c, x) {
      SelectMembership(t, MatchesMask(c), x);
    }
  }

  /** With no year selected the view is empty. */
  lemma NoYearsNoRows(t: seq<LabeledRecord>, levels: set<Option<string>>, remote: string)
    ensures FilterView(t, Criteria({}, levels, remote)) == []
  {
    var c := Criteria({}, levels, remote);
    FilterViewIsConjunction(t, c);
    SelectNone(t, MatchesMask(c));
  }

  /** Filtering the view again with the same criteria changes nothing. */
  lemma FilterViewIdempotent(t: seq<LabeledRecord>, c: Criteria)
    ensures FilterView(FilterView(t, c), c) == FilterView(t, c)
  {
    FilterViewIsConjunction(t, c);
    FilterViewIsConjunction(FilterView(t, c), c);
    SelectOfSelect(t, MatchesMask(c), MatchesMask(c), MatchesMask(c));
  }

  /** One of the three filtering steps of lines 54-64. */
  datatype Step = YearStep | LevelStep | RemoteStep

  function ApplyStep(t: seq<LabeledRecord>, c: Criteria, s: Step): seq<LabeledRecord>
  {
    match s
    case YearStep => FilterYears(t, c.years)
    case LevelStep => FilterLevels(t, c.levels)
    case RemoteStep => FilterRemote(t, c.remote)
  }

  /** The steps applied one after another, in the given order. */
  function ApplySteps(t: seq<LabeledRecord>, c: Criteria, steps: seq<Step>): seq<LabeledRecord>
    decreases steps
  {
    if steps == [] then t else ApplySteps(ApplyStep(t, c, steps[0]), c, steps[1..])
  }

  function StepMask(c: Criteria, s: Step): LabeledRecord -> bool
  {
    match s
    case YearStep => InYears(c.years)
    case LevelStep => InLevels(c.levels)
    case RemoteStep => AdmitsMask(c.remote)
  }

  function StepsMask(c: Criteria, steps: seq<Step>): LabeledRecord -> bool
  {
    (x: LabeledRecord) => forall i :: 0 <= i < |steps| ==> StepMask(c, steps[i])(x)
  }

  /** Any sequence of steps selects the rows that pass each of its steps. */
  lemma {:induction false} ApplyStepsSelects(t: seq<LabeledRecord>, c: Criteria, steps: seq<Step>)
    ensures ApplySteps(t, c, steps) == Select(t, StepsMask(c, steps))
    decreases steps
  {
    if steps == [] {
      SelectAll(t, StepsMask(c, steps));
    } else {
      var first := ApplyStep(t, c, steps[0]);
      if steps[0] == RemoteStep {
        FilterRemoteAdmits(t, c.remote);
      }
      assert first == Select(t, StepMask(c, steps[0]));
      ApplyStepsSelects(first, c, steps[1..]);
      forall x ensures StepsMask(c, steps)(x) == (StepMask(c, steps[0])(x) && StepsMask(c, steps[1..])(x)) {
        if StepMask(c, steps[0])(x) && StepsMask(c, steps[1..])(x) {
          forall i | 0 <= i < |steps| ensures StepMask(c, steps[i])(x) {
            if i > 0 {
              assert steps[i] == steps[1..][i - 1];
            }
          }
        }
      }
      SelectOfSelect(t, StepMask(c, steps[0]), StepsMask(c, steps[1..]), StepsMask(c, steps));
    }
  }

  /**
   * The steps commute and repeating one is harmless: any sequence of steps that contains each
   * of the three at least once gives the source's view.
   */
  lemma AnyStepOrderGivesView(t: seq<LabeledRecord>, c: Criteria, steps: seq<Step>)
    requires YearStep in steps && LevelStep in steps && RemoteStep in steps
    ensures ApplySteps(t, c, steps) == FilterView(t, c)
  {
    ApplyStepsSelects(t, c, steps);
    FilterViewIsConjunction(t, c);
    forall x ensures StepsMask(c, steps)(x) == MatchesMask(c)(x) {
      if Matches(c, x) {
        forall i | 0 <= i < |steps| ensures StepMask(c, steps[i])(x) {
          match steps[i]
          case YearStep =>
          case LevelStep =>
          case RemoteStep =>
        }
      } else {
        var y :| 0 <= y < |steps| && steps[y] == YearStep;
        var l :| 0 <= l < |steps| && steps[l] == LevelStep;
        var r :| 0 <= r < |steps| && steps[r] == RemoteStep;
        assert !StepMask(c, steps[y])(x) || !StepMask(c, steps[l])(x) || !StepMask(c, steps[r])(x);
      }
    }
    SelectSameMask(t, StepsMask(c, steps), MatchesMask(c));
  }

  /** For one row with a ratio in 0..100, exactly one of the three specific options admits it. */
  lemma RemoteOptionsExclusive(ratio: int)
    requires 0 <= ratio <= 100
    ensures RemoteAdmits(AllRemote, ratio)
    ensures RemoteAdmits(FullyRemote, ratio) || RemoteAdmits(Hybrid, ratio) || RemoteAdmits(OnSite, ratio)
    ensures !(RemoteAdmits(FullyRemote, ratio) && RemoteAdmits(Hybrid, ratio))
    ensures !(RemoteAdmits(FullyRemote, ratio) && RemoteAdmits(OnSite, ratio))
    ensures !(RemoteAdmits(Hybrid, ratio) && RemoteAdmits(OnSite, ratio))
  {
  }

  /**
   * When every ratio lies in 0..100, the views of the three specific options share no row and
   * together make up the view of 'Todos'.
   */
  lemma RemoteOptionsPartition(t: seq<LabeledRecord>)
    requires forall i :: 0 <= i < |t| ==> 0 <= t[i].rec.remoteRatio <= 100
    ensures FilterRemote(t, AllRemote) == t
    ensures multiset(FilterRemote(t, FullyRemote)) + multiset(FilterRemote(t, Hybrid))
      + multiset(FilterRemote(t, OnSite)) == multiset(FilterRemote(t, AllRemote))
    ensures |FilterRemote(t, FullyRemote)| + |FilterRemote(t, Hybrid)| + |FilterRemote(t, OnSite)| == |t|
    ensures multiset(FilterRemote(t, FullyRemote)) !! multiset(FilterRemote(t, Hybrid))
    ensures multiset(FilterRemote(t, FullyRemote)) !! multiset(FilterRemote(t, OnSite))
    ensures multiset(FilterRemote(t, Hybrid)) !! multiset(FilterRemote(t, OnSite))
  {
    SelectPartition(t, IsFullyRemote, IsHybrid, IsOnSite);
    var remote, hybrid, onSite := Select(t, IsFullyRemote), Select(t, IsHybrid), Select(t, IsOnSite);
    forall x
      ensures multiset(remote)[x] == 0 || multiset(hybrid)[x] == 0
      ensures multiset(remote)[x] == 0 || multiset(onSite)[x] == 0
      ensures multiset(hybrid)[x] == 0 || multiset(onSite)[x] == 0
    {
      SelectMultiplicity(t, IsFullyRemote, x);
      SelectMultiplicity(t, IsHybrid, x);
      SelectMultiplicity(t, IsOnSite, x);
    }
  }
}
