/**
 * The score page's model-view-update step (actix/src/mvu/score.rs): each
 * message stores what it carries in the model and returns the effects to
 * run next; the page is rendered once the scores, the stored scores and
 * both kinds of step factor have all arrived, unless JSON was asked for.
 * Rendered markup and errors are kept as text; step factors (`f32`) as reals.
 */
module MvuScore {
  import opened Wrappers
  import opened ScoreContext

  type StepFactors = map<(int, string), real>

  datatype Msg =
    | PageLoad
    | ScoresLoaded(data: ScoreData)
    | EventConfigLoaded(step: real)
    | PlayerFactorsLoaded(factors: StepFactors)
    | DbScoresLoaded(fromDbScores: ScoresAndLastRefresh)
    | Rendered(markup: string)
    | Failed(error: string)

  datatype Effect = LoadScores | LoadEventConfig | LoadPlayerFactors | LoadDbScores | RenderTemplate

  /** The model's fields as a value. */
  datatype ScoreState = ScoreState(
    eventId: int, year: int, useCache: bool, expanded: bool, wantJson: bool, cacheMaxAge: int,
    data: Option<ScoreData>, markup: Option<string>, error: Option<string>,
    fromDbScores: Option<ScoresAndLastRefresh>, globalStepFactor: Option<real>,
    playerStepFactors: Option<StepFactors>)

  /** Everything the template needs has arrived. */
  predicate Ready(s: ScoreState) {
    s.data.Some? && s.fromDbScores.Some? && s.globalStepFactor.Some? && s.playerStepFactors.Some?
  }

  /** The four messages that carry loaded data. */
  predicate IsLoad(msg: Msg) {
    msg.ScoresLoaded? || msg.EventConfigLoaded? || msg.PlayerFactorsLoaded? || msg.DbScoresLoaded?
  }

  /** The render effect a load leaves behind: only when HTML is wanted and nothing is missing any more. */
  function RenderIfReady(s: ScoreState): seq<Effect> {
    if !s.wantJson && Ready(s) then [RenderTemplate] else []
  }

  /** `update` on the model as a value: the new model and the effects. */
  function Step(s: ScoreState, msg: Msg): (r: (ScoreState, seq<Effect>))
    ensures msg.PageLoad? ==> r.0 == s && r.1 == [LoadScores, LoadEventConfig, LoadPlayerFactors, LoadDbScores]
    ensures IsLoad(msg) ==> r.1 == RenderIfReady(r.0)
    ensures msg.Rendered? || msg.Failed? ==> r.1 == []
  {
    match msg
    case PageLoad => (s, [LoadScores, LoadEventConfig, LoadPlayerFactors, LoadDbScores])
    case ScoresLoaded(data) =>
      var s' := s.(data := Some(data));
      (s', if s'.wantJson then []
           else if s'.fromDbScores.Some? && s'.globalStepFactor.Some? && s'.playerStepFactors.Some? then [RenderTemplate]
           else [])
    case EventConfigLoaded(step) =>
      var s' := s.(globalStepFactor := Some(step));
      (s', if !s'.wantJson && s'.data.Some? && s'.fromDbScores.Some? && s'.playerStepFactors.Some? then [RenderTemplate] else [])
    case PlayerFactorsLoaded(factors) =>
      var s' := s.(playerStepFactors := Some(factors));
      (s', if !s'.wantJson && s'.data.Some? && s'.fromDbScores.Some? && s'.globalStepFactor.Some? then [RenderTemplate] else [])
    case DbScoresLoaded(fromDb) =>
      var s' := s.(fromDbScores := Some(fromDb));
      (s', if !s'.wantJson && s'.data.Some? && s'.playerStepFactors.Some? && s'.globalStepFactor.Some? then [RenderTemplate] else [])
    case Rendered(markup) => (s.(markup := Some(markup)), [])
    case Failed(e) => (s.(error := Some(e)), [])
  }

  /** The model's optional fields. */
  datatype Field = DataField | MarkupField | ErrorField | FromDbField | GlobalFactorField | PlayerFactorsField

  /** Field f is set. */
  predicate Has(s: ScoreState, f: Field) {
    match f
    case DataField => s.data.Some?
    case MarkupField => s.markup.Some?
    case ErrorField => s.error.Some?
    case FromDbField => s.fromDbScores.Some?
    case GlobalFactorField => s.globalStepFactor.Some?
    case PlayerFactorsField => s.playerStepFactors.Some?
  }

  /** Two states that agree except perhaps on one field. */
  predicate SameExcept(a: ScoreState, b: ScoreState, f: Field) {
    a.eventId == b.eventId && a.year == b.year && a.useCache == b.useCache && a.expanded == b.expanded &&
    a.wantJson == b.wantJson && a.cacheMaxAge == b.cacheMaxAge &&
    (f != DataField ==> a.data == b.data) && (f != MarkupField ==> a.markup == b.markup) &&
    (f != ErrorField ==> a.error == b.error) && (f != FromDbField ==> a.fromDbScores == b.fromDbScores) &&
    (f != GlobalFactorField ==> a.globalStepFactor == b.globalStepFactor) &&
    (f != PlayerFactorsField ==> a.playerStepFactors == b.playerStepFactors)
  }

  /** The field a message other than PageLoad sets. */
  function FieldOf(msg: Msg): Field
    requires !msg.PageLoad?
  {
    match msg
    case ScoresLoaded(_) => DataField
    case EventConfigLoaded(_) => GlobalFactorField
    case PlayerFactorsLoaded(_) => PlayerFactorsField
    case DbScoresLoaded(_) => FromDbField
    case Rendered(_) => MarkupField
    case Failed(_) => ErrorField
  }

  /** Every message other than PageLoad sets its own field, and nothing else. */
  lemma OnlyOwnField(s: ScoreState, msg: Msg)
    requires !msg.PageLoad?
    ensures SameExcept(s, Step(s, msg).0, FieldOf(msg)) && Has(Step(s, msg).0, FieldOf(msg))
  {
  }

  /** The render effect is never asked for on a JSON request. */
  lemma JsonNeverRenders(s: ScoreState, msg: Msg)
    requires s.wantJson
    ensures RenderTemplate !in Step(s, msg).1
  {
  }

  /** Runs the messages in order, collecting the effects. */
  function Run(s: ScoreState, msgs: seq<Msg>): (ScoreState, seq<Effect>) {
    if |msgs| == 0 then (s, [])
    else
      var n := |msgs| - 1;
      var before := Run(s, msgs[..n]);
      var after := Step(before.0, msgs[n]);
      (after.0, before.1 + after.1)
  }

  /** How many of the four loaded fields are set. */
  function LoadedCount(s: ScoreState): (n: nat)
    ensures n == 4 <==> Ready(s)
  {
    (if s.data.Some? then 1 else 0) + (if s.fromDbScores.Some? then 1 else 0) +
    (if s.globalStepFactor.Some? then 1 else 0) + (if s.playerStepFactors.Some? then 1 else 0)
  }

  /** Some message of the run sets field f. */
  predicate Mentions(msgs: seq<Msg>, f: Field) {
    exists i :: 0 <= i < |msgs| && !msgs[i].PageLoad? && FieldOf(msgs[i]) == f
  }

  /** The run holds loads only, each of a different field. */
  predicate DistinctLoads(msgs: seq<Msg>) {
    && (forall i :: 0 <= i < |msgs| ==> IsLoad(msgs[i]))
    && (forall i, j :: 0 <= i < j < |msgs| ==> FieldOf(msgs[i]) != FieldOf(msgs[j]))
  }

  /** Whatever order the four loads arrive in, one each, an HTML page is rendered exactly once, after the last. */
  lemma {:induction false} RenderOnceAfterAllLoads(s: ScoreState, msgs: seq<Msg>)
    requires !s.wantJson && LoadedCount(s) == 0
    requires DistinctLoads(msgs)
    ensures forall f :: f != MarkupField && f != ErrorField ==> (Has(Run(s, msgs).0, f) <==> Mentions(msgs, f))
    ensures LoadedCount(Run(s, msgs).0) == |msgs| && Run(s, msgs).0.wantJson == s.wantJson
    ensures Run(s, msgs).1 == if |msgs| == 4 then [RenderTemplate] else []
  {
    if |msgs| == 0 {
      return;
    }
    var n := |msgs| - 1;
    var prefix := msgs[..n];
    assert DistinctLoads(prefix);
    RenderOnceAfterAllLoads(s, prefix);
    var before := Run(s, prefix);
    MentionsSnoc(msgs);
    assert !Has(before.0, FieldOf(msgs[n]));
    LoadStep(before.0, msgs[n]);
  }

  /** A load of a field not yet set adds one to the count, and renders when it completes the four. */
  lemma LoadStep(s: ScoreState, msg: Msg)
    requires !s.wantJson && IsLoad(msg) && !Has(s, FieldOf(msg))
    ensures LoadedCount(Step(s, msg).0) == LoadedCount(s) + 1 && Step(s, msg).0.wantJson == s.wantJson
    ensures Step(s, msg).1 == if LoadedCount(s) + 1 == 4 then [RenderTemplate] else []
    ensures forall f :: Has(Step(s, msg).0, f) <==> Has(s, f) || f == FieldOf(msg)
  {
    OnlyOwnField(s, msg);
  }

  /** The fields a run of distinct loads mentions: those of its prefix, and the last one's, which is new. */
  lemma MentionsSnoc(msgs: seq<Msg>)
    requires |msgs| > 0 && DistinctLoads(msgs)
    ensures var n := |msgs| - 1;
      && (forall f :: Mentions(msgs, f) <==> Mentions(msgs[..n], f) || FieldOf(msgs[n]) == f)
      && !Mentions(msgs[..n], FieldOf(msgs[n]))
  {
    var n := |msgs| - 1;
    var prefix := msgs[..n];
    forall f
      ensures Mentions(msgs, f) <==> Mentions(prefix, f) || FieldOf(msgs[n]) == f
    {
      if Mentions(prefix, f) {
        var i :| 0 <= i < n && !prefix[i].PageLoad? && FieldOf(prefix[i]) == f;
        assert FieldOf(msgs[i]) == f;
      }
      if Mentions(msgs, f) && FieldOf(msgs[n]) != f {
        var i :| 0 <= i < |msgs| && !msgs[i].PageLoad? && FieldOf(msgs[i]) == f;
        assert FieldOf(prefix[i]) == f;
      }
    }
  }

  // ----- the model as an object -----

  class ScoreModel {
    var eventId: int
    var year: int
    var useCache: bool
    var expanded: bool
    var wantJson: bool
    var cacheMaxAge: int
    var data: Option<ScoreData>
    var markup: Option<string>
    var error: Option<string>
    var fromDbScores: Option<ScoresAndLastRefresh>
    var globalStepFactor: Option<real>
    var playerStepFactors: Option<StepFactors>

    function State(): ScoreState
      reads this
    {
      ScoreState(eventId, year, useCache, expanded, wantJson, cacheMaxAge, data, markup, error,
        fromDbScores, globalStepFactor, playerStepFactors)
    }

    /** `ScoreModel::new`: the request's settings, nothing loaded. */
    constructor (eventId: int, year: int, useCache: bool, expanded: bool, wantJson: bool, cacheMaxAge: int)
      ensures State() == ScoreState(eventId, year, useCache, expanded, wantJson, cacheMaxAge,
        None, None, None, None, None, None)
    {
      this.eventId := eventId;
      this.year := year;
      this.useCache := useCache;
      this.expanded := expanded;
      this.wantJson := wantJson;
      this.cacheMaxAge := cacheMaxAge;
      data := None;
      markup := None;
      error := None;
      fromDbScores := None;
      globalStepFactor := None;
      playerStepFactors := None;
    }

    /** `update`. */
    method Update(msg: Msg) returns (effects: seq<Effect>)
      modifies this
      ensures (State(), effects) == Step(old(State()), msg)
    {
      match msg {
        case PageLoad =>
          effects := [LoadScores, LoadEventConfig, LoadPlayerFactors, LoadDbScores];
        case ScoresLoaded(d) =>
          data := Some(d);
          if wantJson {
            effects := [];
          } else if fromDbScores.Some? && globalStepFactor.Some? && playerStepFactors.Some? {
            effects := [RenderTemplate];
          } else {
            effects := [];
          }
        case EventConfigLoaded(step) =>
          globalStepFactor := Some(step);
          if !wantJson && data.Some? && fromDbScores.Some? && playerStepFactors.Some? {
            effects := [RenderTemplate];
          } else {
            effects := [];
          }
        case PlayerFactorsLoaded(factors) =>
          playerStepFactors := Some(factors);
          if !wantJson && data.Some? && fromDbScores.Some? && globalStepFactor.Some? {
            effects := [RenderTemplate];
          } else {
            effects := [];
          }
        case DbScoresLoaded(fromDb) =>
          fromDbScores := Some(fromDb);
          if !wantJson && data.Some? && playerStepFactors.Some? && globalStepFactor.Some? {
            effects := [RenderTemplate];
          } else {
            effects := [];
          }
        case Rendered(m) =>
          markup := Some(m);
          effects := [];
        case Failed(e) =>
          error := Some(e);
          effects := [];
      }
    }
  }
}
