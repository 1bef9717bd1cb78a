/** The three screens of the interview hub
    (src/components/portal/components/InterviewView.jsx): the overview, the
    set-up form and the running interview, with the set-up data kept only while
    an interview runs. */
module InterviewStages {
  import opened Wrappers
  import PreInterview

  datatype Stage = Overview | Setup | Interviewing

  datatype Hub = Hub(stage: Stage, data: Option<PreInterview.SetupForm>)

  const Initial := Hub(Overview, None)

  /** What the user (or a child component) can trigger. */
  datatype Event =
    | StartSetup                                // "Start Interview" on the overview
    | BackToHub                                 // "Back to Interview Hub" on the set-up screen
    | SetupComplete(form: PreInterview.SetupForm) // the set-up form hands over its data
    | EndInterview                              // "End Interview" on the interview screen

  /** The handlers; each sets the stage unconditionally, as the hub's handlers do. */
  function Step(h: Hub, e: Event): (r: Hub)
    ensures e.StartSetup? ==> r == h.(stage := Setup)
    ensures e.BackToHub? ==> r == h.(stage := Overview)
    ensures e.SetupComplete? ==> r == Hub(Interviewing, Some(e.form))
    ensures e.EndInterview? ==> r == Initial
  {
    match e
    case StartSetup => h.(stage := Setup)
    case BackToHub => h.(stage := Overview)
    case SetupComplete(d) => Hub(Interviewing, Some(d))
    case EndInterview => Hub(Overview, None)
  }

  /** The events the screen of `s` offers when the set-up form's completion
      callback is connected. */
  predicate Offered(s: Stage, e: Event) {
    match e
    case StartSetup => s == Overview
    case BackToHub => s == Setup
    case SetupComplete(_) => s == Setup
    case EndInterview => s == Interviewing
  }

  /** The events actually offered: the hub hands the form its callback as
      `onComplete`, while the form calls `onStartInterview`, so completion
      never reaches the hub. */
  predicate Wired(s: Stage, e: Event) {
    Offered(s, e) && !e.SetupComplete?
  }

  /** Set-up data is held exactly while an interview runs. */
  predicate Consistent(h: Hub) {
    h.data.Some? <==> h.stage == Interviewing
  }

  /** Every offered event keeps the hub consistent. */
  lemma StepKeepsConsistent(h: Hub, e: Event)
    requires Consistent(h) && Offered(h.stage, e)
    ensures Consistent(Step(h, e))
  {
  }

  /** The hub after a run of events. */
  function Run(h: Hub, es: seq<Event>): Hub
    decreases |es|
  {
    if |es| == 0 then h else Run(Step(h, es[0]), es[1..])
  }

  /** Every event of `es` is offered by the screen it happens on. */
  predicate OfferedRun(h: Hub, es: seq<Event>, wired: bool)
    decreases |es|
  {
    |es| == 0 ||
    ((if wired then Wired(h.stage, es[0]) else Offered(h.stage, es[0]))
     && OfferedRun(Step(h, es[0]), es[1..], wired))
  }

  /** Any run of offered events keeps the hub consistent. */
  lemma {:induction false} RunKeepsConsistent(h: Hub, es: seq<Event>)
    requires Consistent(h) && OfferedRun(h, es, false)
    ensures Consistent(Run(h, es))
    decreases |es|
  {
    if |es| > 0 {
      StepKeepsConsistent(h, es[0]);
      RunKeepsConsistent(Step(h, es[0]), es[1..]);
    }
  }

  /** As designed, the interview is reached by starting set-up and completing it. */
  lemma DesignedPathReachesInterview(form: PreInterview.SetupForm)
    ensures OfferedRun(Initial, [StartSetup, SetupComplete(form)], false)
    ensures Run(Initial, [StartSetup, SetupComplete(form)]) == Hub(Interviewing, Some(form))
  {
    var es := [StartSetup, SetupComplete(form)];
    assert es[1..] == [SetupComplete(form)];
    assert es[1..][1..] == [];
    assert Run(Initial, es) == Run(Hub(Setup, None), [SetupComplete(form)]);
    assert Run(Hub(Setup, None), [SetupComplete(form)]) == Run(Hub(Interviewing, Some(form)), []);
  }

  /** As wired, no run starting outside the interview screen ever reaches it. */
  lemma {:induction false} WiredNeverInterviews(h: Hub, es: seq<Event>)
    requires h.stage != Interviewing && OfferedRun(h, es, true)
    ensures Run(h, es).stage != Interviewing
    decreases |es|
  {
    if |es| > 0 {
      WiredNeverInterviews(Step(h, es[0]), es[1..]);
    }
  }
}
