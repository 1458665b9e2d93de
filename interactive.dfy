/**
 * The interactive step controller: one round trip of the exploration agent.
 * It rebuilds the page by replaying the client's action history, then either
 * forces a `finish` once the step budget is spent, or asks the planner for
 * the next action and executes it, retrying up to three times.
 *
 * The language model is an oracle that answers a prompt or throws; prompts
 * are recorded by what they show rather than by their wording.
 */
module InteractiveAnalyze {
  import opened Common
  import opened Elements
  import opened Hosts
  import opened Browser
  import opened Actions

  const MaxTotalSteps := 5
  const MaxAttempts := 3
  const ExcerptLength := 5000
  const StartPath := "/dummy-ec-site/index.html"

  const LimitReason := "Maximum steps reached."
  const InvalidTaskMessage := "Invalid task provided."
  const MalformedPlanMessage := "AI response was not a valid JSON format."
  const ExhaustedMessage := "Action failed after 3 attempts. Aborting."

  /** The request body after defaults: `currentStep` defaults to 0 and
      `previousActions` to the empty history. A `task` that is not a string
      is absent. */
  datatype StepRequest = StepRequest(task: Option<string>, currentStep: int, previousActions: seq<Action>)

  /** The JSON response: 200 with the chosen action, the new page state,
      the advanced step counter and the critique; or an error status. */
  datatype StepResponse =
    | Stepped(action: Action, newState: PageState, currentStep: int, analysisResult: Option<string>)
    | Failed(status: int, error: string)

  /** What a prompt shows the model. */
  datatype Prompt =
    | PlanPrompt(task: string, url: string, html: string, elements: seq<InteractiveElement>, retryNote: bool)
    | CritiquePrompt(goal: Option<string>, history: seq<Action>, url: string, html: string, elements: seq<InteractiveElement>)

  /** Why a request failed. */
  datatype Fault =
    | NoFault
    | InvalidTask
    | BrowserFailed
    | ReplayFailed(index: nat, cause: string)
    | ServiceFailed
    | MalformedPlan
    | Exhausted

  /** What one request did: the planner prompts in order, the actions parsed
      from the replies, the critique prompt, why it failed, whether a page was
      opened and the operations performed on it. */
  datatype StepLog = StepLog(
    plans: seq<Prompt>,
    planned: seq<Action>,
    critique: Option<Prompt>,
    fault: Fault,
    pageOpened: bool,
    trace: seq<Op>)

  /** The action the forced-finish path answers with. */
  const LimitAction := Action(Finish, None, None, Some(LimitReason))

  /** The step budget is spent: `currentStep >= MAX_TOTAL_STEPS - 1`. */
  predicate AtLimit(req: StepRequest) {
    req.currentStep >= MaxTotalSteps - 1
  }

  /** `${protocol}://${host}/dummy-ec-site/index.html`; an absent `Host`
      header renders as `null`. */
  function StartUrl(production: bool, host: Option<string>): (r: string)
    ensures |r| > |StartPath|
    ensures r[..|r| - |StartPath|] == (if production then "https://" else "http://") + (if host.Some? then host.value else "null")
    ensures r[|r| - |StartPath|..] == StartPath
  {
    (if production then "https://" else "http://") + (if host.Some? then host.value else "null") + StartPath
  }

  /** `html.substring(0, 5000)`. */
  function Excerpt(html: string): (r: string)
    ensures r <= html
    ensures |r| == if |html| <= ExcerptLength then |html| else ExcerptLength
  {
    if |html| <= ExcerptLength then html else html[..ExcerptLength]
  }

  /** The operations that rebuild the page: the start URL, then the history. */
  function Rebuilt(url: string, history: seq<Action>, host: Option<string>, checkHost: bool): seq<Op> {
    [Goto(url)] + OpsOf(history, host, checkHost)
  }

  /** The message a failed normal-path replay reports: the kind and selector
      of the action that failed (an absent selector renders `undefined`) and
      the cause. */
  function ReplayMessage(a: Action, cause: string): string {
    "Failed to re-execute previous action: " + VerbName(a.verb) + " on " + Show(a.selector) + ". Error: " + cause
  }

  /** An action whose execution can throw, and so one that was retried when
      a later attempt follows it. */
  predicate MayThrow(a: Action, host: Option<string>) {
    a.verb != Finish && !EffectOf(a, host, true).Skip?
  }

  /** `model.generateContent(prompt)`: the reply text, or the error thrown. */
  method Generate(prompt: Prompt) returns (r: Result<string>)
  {
    var ok: bool :| true;
    if ok {
      var text: string :| true;
      r := Ok(text);
    } else {
      var m: string :| true;
      r := Err(m);
    }
  }

  /** How a replay loop ended. */
  datatype ReplayEnd = Replayed | Stopped(index: nat, cause: string)

  /** Re-executes the history in order, stopping at the first action that
      throws. Before that action every operation of the history has been
      performed; the action itself either was refused before touching the
      page or was passed to a browser operation that threw. */
  method Replay(p: Page, history: seq<Action>, host: Option<string>, checkHost: bool) returns (e: ReplayEnd)
    modifies p
    ensures e.Replayed? ==> NoRefusal(history, host, checkHost)
    ensures e.Replayed? ==> p.trace == old(p.trace) + OpsOf(history, host, checkHost)
    ensures e.Stopped? ==> e.index < |history| && NoRefusal(history[..e.index], host, checkHost)
    ensures e.Stopped? ==> p.trace == old(p.trace) + OpsOf(history[..e.index], host, checkHost)
    ensures e.Stopped? ==> !EffectOf(history[e.index], host, checkHost).Skip?
    ensures e.Stopped? && EffectOf(history[e.index], host, checkHost).Refuse? ==>
      e.cause == EffectOf(history[e.index], host, checkHost).message
  {
    var i := 0;
    while i < |history|
      invariant 0 <= i <= |history|
      invariant NoRefusal(history[..i], host, checkHost)
      invariant p.trace == old(p.trace) + OpsOf(history[..i], host, checkHost)
    {
      var a := history[i];
      PrefixStep(history, i, host, checkHost);
      ghost var done := OpsOf(history[..i], host, checkHost);
      match EffectOf(a, host, checkHost) {
        case Skip =>
        case Refuse(m) =>
          return Stopped(i, m);
        case Run(op) =>
          var o := p.Perform(op);
          if o.Threw? {
            return Stopped(i, o.message);
          }
          assert p.trace == old(p.trace) + (done + [op]);
      }
      i := i + 1;
    }
    assert history[..i] == history;
    e := Replayed;
  }

  /** The forced-finish rebuild: launch, open the start URL, replay the
      history with the host check and capture the state. Any failure is
      swallowed and leaves the empty state; the URL shown is the page's once
      a page exists. */
  method RebuildQuietly(history: seq<Action>, host: Option<string>, url: string, site: seq<Op> -> RawPage)
    returns (state: PageState, shownUrl: string, ghost hasPage: bool, ghost trace: seq<Op>)
    ensures shownUrl == if hasPage then site(trace).url else url
    ensures || state == EmptyState
            || (&& NoRefusal(history, host, true)
                && trace == Rebuilt(url, history, host, true)
                && state == Snapshot(site(trace)))
  {
    state, shownUrl, hasPage, trace := EmptyState, url, false, [];
    var launched := Launch(site);
    if launched.Err? {
      return;
    }
    var p := launched.value;
    hasPage := true;
    var o := p.Perform(Goto(url));
    if o.Done? {
      assert p.trace == [Goto(url)];
      var e := Replay(p, history, host, true);
      if e.Replayed? {
        assert p.trace == Rebuilt(url, history, host, true);
        var captured := GetPageState(p);
        if captured.Ok? {
          state := captured.value;
        }
      }
    }
    trace := p.trace;
    shownUrl := p.Url();
  }

  /** The forced-finish path: no action is planned. The page is rebuilt with
      the host-checked replay; any browser failure leaves the empty state.
      The critique is requested, and only its failure fails the request. */
  method FinishAtLimit(req: StepRequest, host: Option<string>, url: string, site: seq<Op> -> RawPage)
    returns (resp: StepResponse, ghost log: StepLog)
    ensures log.plans == [] && log.planned == []
    ensures log.fault == NoFault || log.fault == ServiceFailed
    ensures resp.Failed? <==> log.fault == ServiceFailed
    ensures resp.Failed? ==> resp.status == 500
    ensures log.critique.Some? && log.critique.value.CritiquePrompt?
    ensures log.critique.value.goal == req.task && log.critique.value.history == req.previousActions
    ensures log.critique.value.url == if log.pageOpened then site(log.trace).url else url
    ensures resp.Stepped? ==> resp.action == LimitAction && resp.currentStep == req.currentStep + 1
    ensures resp.Stepped? ==> resp.analysisResult.Some?
    ensures resp.Stepped? ==>
      || resp.newState == EmptyState
      || (&& NoRefusal(req.previousActions, host, true)
          && log.trace == Rebuilt(url, req.previousActions, host, true)
          && resp.newState == Snapshot(site(log.trace)))
    ensures log.critique.value.html == (if resp.Stepped? then Excerpt(resp.newState.html) else log.critique.value.html)
  {
    var state, shownUrl, hasPage, trace := RebuildQuietly(req.previousActions, host, url, site);
    var prompt := CritiquePrompt(req.task, req.previousActions, shownUrl, Excerpt(state.html), state.interactiveElements);
    var reply := Generate(prompt);
    if reply.Err? {
      resp := Failed(500, reply.message);
      log := StepLog([], [], Some(prompt), ServiceFailed, hasPage, trace);
    } else {
      resp := Stepped(LimitAction, state, req.currentStep + 1, Some(reply.value));
      log := StepLog([], [], Some(prompt), NoFault, hasPage, trace);
    }
  }

  /** How the planning loop ended: settled (with or without success, and
      with the last parsed action if any), or aborted by a thrown error. */
  datatype LoopEnd =
    | Settled(success: bool, action: Option<Action>, state: PageState)
    | Aborted(fault: Fault, message: string)

  /** How one attempt ended: an action was planned and executed (or was a
      `finish`), possibly throwing; or the planner failed outright. */
  datatype AttemptEnd =
    | Executed(action: Action, thrown: bool)
    | Broke(fault: Fault, message: string)

  /** One attempt: ask the planner, parse its reply and, unless it is
      `finish`, execute the action with the same-host rule. A refused
      navigation throws like a failed browser operation. */
  method Attempt(p: Page, prompt: Prompt, host: Option<string>, parse: string -> Option<Action>)
    returns (r: AttemptEnd)
    modifies p
    ensures r.Broke? ==> p.trace == old(p.trace)
    ensures r.Broke? ==> r.fault == ServiceFailed || (r.fault == MalformedPlan && r.message == MalformedPlanMessage)
    ensures r.Executed? && r.thrown ==> MayThrow(r.action, host) && p.trace == old(p.trace)
    ensures r.Executed? && r.action.verb == Finish ==> !r.thrown && p.trace == old(p.trace)
    ensures r.Executed? && !r.thrown && r.action.verb != Finish ==>
      && !EffectOf(r.action, host, true).Refuse?
      && p.trace == old(p.trace) + OpsOf([r.action], host, true)
  {
    var reply := Generate(prompt);
    if reply.Err? {
      return Broke(ServiceFailed, reply.message);
    }
    var parsed := parse(reply.value);
    if parsed.None? {
      return Broke(MalformedPlan, MalformedPlanMessage);
    }
    var action := parsed.value;
    assert OpsOf([action], host, true) == OpOf(action, host, true) by {
      assert [action][1..] == [];
    }
    if action.verb == Finish {
      return Executed(action, false);
    }
    var thrown := false;
    match EffectOf(action, host, true) {
      case Skip =>
      case Refuse(_) =>
        thrown := true;
      case Run(op) =>
        var o := p.Perform(op);
        thrown := o.Threw?;
    }
    r := Executed(action, thrown);
  }

  /** The plan/execute/retry loop. Each attempt asks the planner about the
      current page (with a retry note after the first), parses its reply and,
      unless it is `finish`, executes it with the same-host rule. Only an
      execution that throws costs an attempt, and then the state is captured
      again. A reply that does not parse, or a planner error, aborts at once. */
  method PlanAndExecute(p: Page, task: string, host: Option<string>, parse: string -> Option<Action>, state: PageState)
    returns (end: LoopEnd, ghost plans: seq<Prompt>, ghost planned: seq<Action>)
    requires state == Snapshot(p.site(p.trace))
    modifies p
    ensures 1 <= |plans| <= MaxAttempts
    ensures forall i :: 0 <= i < |plans| ==>
      plans[i] == PlanPrompt(task, old(p.Url()), Excerpt(state.html), state.interactiveElements, i > 0)
    ensures |planned| <= |plans| <= |planned| + 1
    ensures forall i :: 0 <= i < |planned| - 1 ==> MayThrow(planned[i], host)
    ensures end.Aborted? && end.fault != BrowserFailed ==>
      |plans| == |planned| + 1 && (end.fault == MalformedPlan || end.fault == ServiceFailed)
    ensures end.Aborted? && end.fault == MalformedPlan ==> end.message == MalformedPlanMessage
    ensures end.Aborted? ==> (forall i :: 0 <= i < |planned| ==> MayThrow(planned[i], host)) && p.trace == old(p.trace)
    ensures end.Settled? ==> |plans| == |planned| && end.action == Some(planned[|planned| - 1]) && end.state == state
    ensures end.Settled? && !end.success ==>
      |planned| == MaxAttempts && MayThrow(planned[|planned| - 1], host) && p.trace == old(p.trace)
    ensures end.Settled? && end.success && end.action.value.verb == Finish ==> p.trace == old(p.trace)
    ensures end.Settled? && end.success && end.action.value.verb != Finish ==>
      && !EffectOf(end.action.value, host, true).Refuse?
      && p.trace == old(p.trace) + OpsOf([end.action.value], host, true)
  {
    var actionSuccess := false;
    var attempts := 0;
    var action: Option<Action> := None;
    var current := state;
    plans := [];
    planned := [];
    while !actionSuccess && attempts < MaxAttempts
      invariant 0 <= attempts <= MaxAttempts
      invariant current == state
      invariant !actionSuccess ==> |plans| == |planned| == attempts && p.trace == old(p.trace)
      invariant actionSuccess ==> attempts < MaxAttempts && |plans| == |planned| == attempts + 1
      invariant forall i :: 0 <= i < |plans| ==>
        plans[i] == PlanPrompt(task, old(p.Url()), Excerpt(state.html), state.interactiveElements, i > 0)
      invariant forall i :: 0 <= i < attempts ==> MayThrow(planned[i], host)
      invariant action == if planned == [] then None else Some(planned[|planned| - 1])
      invariant actionSuccess && action.value.verb != Finish ==>
        && !EffectOf(action.value, host, true).Refuse?
        && p.trace == old(p.trace) + OpsOf([action.value], host, true)
      invariant actionSuccess && action.value.verb == Finish ==> p.trace == old(p.trace)
      decreases MaxAttempts - attempts + (if actionSuccess then 0 else 1)
    {
      var prompt := PlanPrompt(task, p.Url(), Excerpt(current.html), current.interactiveElements, attempts > 0);
      plans := plans + [prompt];
      var r := Attempt(p, prompt, host, parse);
      if r.Broke? {
        return Aborted(r.fault, r.message), plans, planned;
      }
      action := Some(r.action);
      planned := planned + [r.action];
      if !r.thrown {
        actionSuccess := true;
      } else {
        attempts := attempts + 1;
        var captured := GetPageState(p);
        if captured.Err? {
          return Aborted(BrowserFailed, captured.message), plans, planned;
        }
        current := captured.value;
      }
    }
    end := Settled(actionSuccess, action, current);
  }

  /** Launches the browser, opens the start URL and replays the history
      without the host check. Any failure ends the request: a browser error
      as thrown, a replay error wrapped with the action that failed. */
  method OpenAndReplay(history: seq<Action>, host: Option<string>, url: string, site: seq<Op> -> RawPage)
    returns (p: Page?, state: PageState, fault: Fault, message: string, ghost hasPage: bool, ghost trace: seq<Op>)
    ensures p != null <==> fault == NoFault
    ensures fault == NoFault || fault == BrowserFailed || fault.ReplayFailed?
    ensures p != null ==> && fresh(p) && p.site == site && hasPage
                          && NoRefusal(history, host, false)
                          && p.trace == Rebuilt(url, history, host, false)
                          && state == Snapshot(site(p.trace))
    ensures fault.ReplayFailed? ==>
      && fault.index < |history|
      && message == ReplayMessage(history[fault.index], fault.cause)
      && NoRefusal(history[..fault.index], host, false)
      && (EffectOf(history[fault.index], host, false).Refuse? ==> fault.cause == InvalidNavigationMessage)
  {
    p, state, message, hasPage, trace := null, EmptyState, "", false, [];
    var launched := Launch(site);
    if launched.Err? {
      return null, EmptyState, BrowserFailed, launched.message, false, [];
    }
    var page := launched.value;
    hasPage := true;
    var o := page.Perform(Goto(url));
    if o.Threw? {
      return null, EmptyState, BrowserFailed, o.message, true, page.trace;
    }
    assert page.trace == [Goto(url)];
    var replay := Replay(page, history, host, false);
    if replay.Stopped? {
      var failed := history[replay.index];
      fault := ReplayFailed(replay.index, replay.cause);
      return null, EmptyState, fault, ReplayMessage(failed, replay.cause), true, page.trace;
    }
    assert page.trace == Rebuilt(url, history, host, false);
    var captured := GetPageState(page);
    if captured.Err? {
      return null, EmptyState, BrowserFailed, captured.message, true, page.trace;
    }
    p, state, fault, trace := page, captured.value, NoFault, page.trace;
  }

  /** The normal path once the page is rebuilt: run the planning loop,
      request the critique after a `finish`, refuse an exhausted loop, and
      answer with the final page state. */
  method StepOnPage(p: Page, req: StepRequest, host: Option<string>,
                    parse: string -> Option<Action>, state: PageState)
    returns (resp: StepResponse, ghost log: StepLog)
    requires Given(req.task)
    requires state == Snapshot(p.site(p.trace))
    modifies p
    ensures resp.Failed? <==> log.fault != NoFault
    ensures log.fault == NoFault || log.fault == BrowserFailed || log.fault == ServiceFailed
      || log.fault == MalformedPlan || log.fault == Exhausted
    ensures resp.Failed? ==> resp.status == 500
    ensures resp.Stepped? ==> resp.currentStep == req.currentStep + 1
    ensures resp.Stepped? ==> (resp.analysisResult.Some? <==> resp.action.verb == Finish)
    ensures 1 <= |log.plans| <= MaxAttempts
    ensures log.critique.Some? ==> log.critique.value.CritiquePrompt? && log.critique.value.history == req.previousActions
    ensures forall i :: 0 <= i < |log.plans| ==>
      log.plans[i] == PlanPrompt(req.task.value, old(p.Url()), Excerpt(state.html), state.interactiveElements, i > 0)
    ensures forall i :: 0 <= i < |log.planned| - 1 ==> MayThrow(log.planned[i], host)
    ensures log.fault == MalformedPlan ==>
      resp == Failed(500, MalformedPlanMessage) && |log.plans| == |log.planned| + 1
    ensures log.fault == Exhausted ==>
      && resp == Failed(500, ExhaustedMessage)
      && |log.plans| == |log.planned| == MaxAttempts
      && forall i :: 0 <= i < MaxAttempts ==> MayThrow(log.planned[i], host)
    ensures resp.Stepped? ==>
      && log.planned != [] && resp.action == log.planned[|log.planned| - 1]
      && !EffectOf(resp.action, host, true).Refuse?
      && log.trace == old(p.trace) + (if resp.action.verb == Finish then [] else OpsOf([resp.action], host, true))
      && resp.newState == Snapshot(p.site(log.trace))
  {
    var end, plans, planned := PlanAndExecute(p, req.task.value, host, parse, state);
    if end.Aborted? {
      return Failed(500, end.message), StepLog(plans, planned, None, end.fault, true, p.trace);
    }
    var analysisResult: Option<string> := None;
    ghost var critique: Option<Prompt> := None;
    if end.action.Some? && end.action.value.verb == Finish {
      var prompt := CritiquePrompt(req.task, req.previousActions, p.Url(), Excerpt(end.state.html), end.state.interactiveElements);
      critique := Some(prompt);
      var reply := Generate(prompt);
      if reply.Err? {
        return Failed(500, reply.message), StepLog(plans, planned, critique, ServiceFailed, true, p.trace);
      }
      analysisResult := Some(reply.value);
    }
    if !end.success && (end.action.None? || end.action.value.verb != Finish) {
      return Failed(500, ExhaustedMessage), StepLog(plans, planned, critique, Exhausted, true, p.trace);
    }
    var newState := GetPageState(p);
    if newState.Err? {
      return Failed(500, newState.message), StepLog(plans, planned, critique, BrowserFailed, true, p.trace);
    }
    resp := Stepped(end.action.value, newState.value, req.currentStep + 1, analysisResult);
    log := StepLog(plans, planned, critique, NoFault, true, p.trace);
  }

  /** The normal path after task validation: rebuild the page, then take the
      step on it; a failed rebuild ends the request before any planning. */
  method TakeStep(req: StepRequest, host: Option<string>, url: string,
                  site: seq<Op> -> RawPage, parse: string -> Option<Action>)
    returns (resp: StepResponse, ghost log: StepLog)
    requires Given(req.task)
    ensures resp.Failed? <==> log.fault != NoFault
    ensures log.fault != InvalidTask
    ensures resp.Failed? ==> resp.status == 500
    ensures resp.Stepped? ==> resp.currentStep == req.currentStep + 1
    ensures resp.Stepped? ==> (resp.analysisResult.Some? <==> resp.action.verb == Finish)
    ensures |log.plans| <= MaxAttempts
    ensures log.critique.Some? ==> log.critique.value.CritiquePrompt? && log.critique.value.history == req.previousActions
    ensures log.fault.ReplayFailed? ==>
      && log.plans == [] && log.critique.None?
      && log.fault.index < |req.previousActions|
      && resp == Failed(500, ReplayMessage(req.previousActions[log.fault.index], log.fault.cause))
      && NoRefusal(req.previousActions[..log.fault.index], host, false)
      && (EffectOf(req.previousActions[log.fault.index], host, false).Refuse? ==>
            log.fault.cause == InvalidNavigationMessage)
    ensures log.plans != [] ==>
      var base := site(Rebuilt(url, req.previousActions, host, false));
      && NoRefusal(req.previousActions, host, false)
      && forall i :: 0 <= i < |log.plans| ==>
           log.plans[i] == PlanPrompt(req.task.value, base.url, Excerpt(base.html), DescribeAll(base.elements), i > 0)
    ensures forall i :: 0 <= i < |log.planned| - 1 ==> MayThrow(log.planned[i], host)
    ensures log.fault == MalformedPlan ==>
      resp == Failed(500, MalformedPlanMessage) && |log.plans| == |log.planned| + 1
    ensures log.fault == Exhausted ==>
      && resp == Failed(500, ExhaustedMessage)
      && |log.plans| == |log.planned| == MaxAttempts
      && forall i :: 0 <= i < MaxAttempts ==> MayThrow(log.planned[i], host)
    ensures resp.Stepped? ==>
      && log.planned != [] && resp.action == log.planned[|log.planned| - 1]
      && !EffectOf(resp.action, host, true).Refuse?
      && log.trace == Rebuilt(url, req.previousActions, host, false)
           + (if resp.action.verb == Finish then [] else OpsOf([resp.action], host, true))
      && resp.newState == Snapshot(site(log.trace))
  {
    var p, state, fault, message, hasPage, trace := OpenAndReplay(req.previousActions, host, url, site);
    if p == null {
      return Failed(500, message), StepLog([], [], None, fault, hasPage, trace);
    }
    ghost var base := site(Rebuilt(url, req.previousActions, host, false));
    assert p.Url() == base.url;
    assert state.html == base.html && state.interactiveElements == DescribeAll(base.elements);
    resp, log := StepOnPage(p, req, host, parse, state);
  }

  /** The handler. `host` is the request's `Host` header, `production`
      whether the server runs in production, `site` what the browser shows
      after each sequence of operations, and `parse` how a planner reply is
      read as an action (None when it is not a JSON action). */
  method Post(req: StepRequest, host: Option<string>, production: bool,
              site: seq<Op> -> RawPage, parse: string -> Option<Action>)
    returns (resp: StepResponse, ghost log: StepLog)
    ensures resp.Failed? <==> log.fault != NoFault
    ensures resp.Failed? ==> resp.status == (if log.fault == InvalidTask then 400 else 500)
    ensures resp.Stepped? ==> resp.currentStep == req.currentStep + 1
    ensures resp.Stepped? ==> (resp.analysisResult.Some? <==> resp.action.verb == Finish)
    ensures |log.plans| <= MaxAttempts
    ensures forall i :: 0 <= i < |log.plans| ==> log.plans[i].PlanPrompt? && log.plans[i].retryNote == (i > 0)
    ensures log.critique.Some? ==> log.critique.value.CritiquePrompt? && log.critique.value.history == req.previousActions
    // the forced finish
    ensures AtLimit(req) ==> log.plans == [] && log.critique.Some?
    ensures AtLimit(req) ==> log.fault == NoFault || log.fault == ServiceFailed
    ensures AtLimit(req) && resp.Stepped? ==> resp.action == LimitAction
    ensures AtLimit(req) && resp.Stepped? ==>
      || resp.newState == EmptyState
      || (&& NoRefusal(req.previousActions, host, true)
          && resp.newState == Snapshot(site(Rebuilt(StartUrl(production, host), req.previousActions, host, true))))
    // task validation
    ensures log.fault == InvalidTask <==> !AtLimit(req) && !Given(req.task)
    ensures log.fault == InvalidTask ==> resp == Failed(400, InvalidTaskMessage) && log.plans == [] && log.critique.None?
    // the replay
    ensures log.fault.ReplayFailed? ==>
      && !AtLimit(req) && log.plans == [] && log.critique.None?
      && log.fault.index < |req.previousActions|
      && resp == Failed(500, ReplayMessage(req.previousActions[log.fault.index], log.fault.cause))
      && NoRefusal(req.previousActions[..log.fault.index], host, false)
      && (EffectOf(req.previousActions[log.fault.index], host, false).Refuse? ==>
            log.fault.cause == InvalidNavigationMessage)
    // planning
    ensures !AtLimit(req) && log.plans != [] ==>
      var base := site(Rebuilt(StartUrl(production, host), req.previousActions, host, false));
      && NoRefusal(req.previousActions, host, false)
      && forall i :: 0 <= i < |log.plans| ==>
           log.plans[i] == PlanPrompt(req.task.value, base.url, Excerpt(base.html), DescribeAll(base.elements), i > 0)
    ensures forall i :: 0 <= i < |log.planned| - 1 ==> MayThrow(log.planned[i], host)
    ensures log.fault == MalformedPlan ==>
      resp == Failed(500, MalformedPlanMessage) && |log.plans| == |log.planned| + 1
    ensures log.fault == Exhausted ==>
      && resp == Failed(500, ExhaustedMessage)
      && |log.plans| == |log.planned| == MaxAttempts
      && forall i :: 0 <= i < MaxAttempts ==> MayThrow(log.planned[i], host)
    // a normal step that succeeds
    ensures !AtLimit(req) && resp.Stepped? ==>
      && log.planned != [] && resp.action == log.planned[|log.planned| - 1]
      && !EffectOf(resp.action, host, true).Refuse?
      && log.trace == Rebuilt(StartUrl(production, host), req.previousActions, host, false)
           + (if resp.action.verb == Finish then [] else OpsOf([resp.action], host, true))
      && resp.newState == Snapshot(site(log.trace))
  {
    var url := StartUrl(production, host);
    if AtLimit(req) {
      resp, log := FinishAtLimit(req, host, url, site);
    } else if !Given(req.task) {
      resp := Failed(400, InvalidTaskMessage);
      log := StepLog([], [], None, InvalidTask, false, []);
    } else {
      resp, log := TakeStep(req, host, url, site, parse);
    }
  }
}
