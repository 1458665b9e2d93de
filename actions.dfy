/**
 * Planned actions and what executing one does to the page: the `switch` on
 * the action kind shared by both replay loops and the retry loop.
 */
module Actions {
  import opened Common
  import opened Hosts
  import opened Browser

  /** The action kind. The handler switches on the kind string and does
      nothing for a kind it does not know. */
  datatype Verb = Click | Fill | Navigate | Finish | Unknown(name: string)

  /** A kind as the switch can meet it: an unknown kind never spells a known one. */
  predicate Canonical(v: Verb) {
    v.Unknown? ==> v.name !in {"click", "fill", "navigate", "finish"}
  }

  /** The kinds an action can carry: the kind string read by the switch. */
  type Kind = v: Verb | Canonical(v) witness Verb.Finish

  /** The `Action` record: kind, and optional selector, value (fill text or
      navigation target) and reason. */
  datatype Action = Action(verb: Kind, selector: Option<string>, value: Option<string>, reason: Option<string>)

  /** The kind string as it appears in the JSON. */
  function VerbName(v: Verb): string {
    match v
    case Click => "click"
    case Fill => "fill"
    case Navigate => "navigate"
    case Finish => "finish"
    case Unknown(name) => name
  }

  /** How the `switch` classifies a kind string. */
  function ParseVerb(name: string): (v: Kind)
    ensures VerbName(v) == name
  {
    if name == "click" then Verb.Click
    else if name == "fill" then Verb.Fill
    else if name == "navigate" then Navigate
    else if name == "finish" then Finish
    else Unknown(name)
  }

  /** Reading the kind string back gives the kind that was written. */
  lemma ParseVerbName(v: Kind)
    ensures ParseVerb(VerbName(v)) == v
  {
  }

  const ExternalNavigationMessage := "Navigation to external URL is not allowed."
  const InvalidNavigationMessage := "Invalid URL for navigation."

  /** What executing an action comes to: one page operation, nothing at
      all, or an error thrown before the page is touched. */
  datatype Effect = Run(op: Op) | Skip | Refuse(message: string)

  /** The `switch` over the action kind. `click` needs a non-empty selector
      and `fill` a non-empty selector and a value, or they do nothing;
      `navigate` needs a string value, and when `checkHost` is set (the
      forced-finish replay and freshly planned actions) its target must pass
      the same-host rule. Every other kind does nothing. */
  function EffectOf(a: Action, host: Option<string>, checkHost: bool): Effect {
    match a.verb
    case Click =>
      if Given(a.selector) then Run(Op.Click(a.selector.value)) else Skip
    case Fill =>
      if Given(a.selector) && a.value.Some? then Run(Op.Fill(a.selector.value, a.value.value)) else Skip
    case Navigate =>
      if a.value.None? then Refuse(InvalidNavigationMessage)
      else if checkHost && !NavigationAllowed(a.value.value, host) then Refuse(ExternalNavigationMessage)
      else Run(Goto(a.value.value))
    case _ => Skip
  }

  /** A checked `navigate` reaches the browser exactly when its value is a
      string whose hostname agrees with the `Host` header; it then goes to
      that URL. */
  lemma CheckedNavigation(a: Action, host: Option<string>)
    requires a.verb == Navigate
    ensures EffectOf(a, host, true).Run? <==> a.value.Some? && NavigationAllowed(a.value.value, host)
    ensures EffectOf(a, host, true).Run? ==> EffectOf(a, host, true).op == Goto(a.value.value)
    ensures a.value.None? ==> EffectOf(a, host, true) == Refuse(InvalidNavigationMessage)
    ensures a.value.Some? && !NavigationAllowed(a.value.value, host) ==>
      EffectOf(a, host, true) == Refuse(ExternalNavigationMessage)
  {
  }

  /** Without the check a `navigate` with a string value always reaches the browser. */
  lemma UncheckedNavigation(a: Action, host: Option<string>)
    requires a.verb == Navigate
    ensures EffectOf(a, host, false).Run? <==> a.value.Some?
  {
  }

  /** Only `navigate` can throw before touching the page; `click` and `fill`
      without what they need, `finish` and unknown kinds do nothing. */
  lemma SkipAndRefuse(a: Action, host: Option<string>, checkHost: bool)
    ensures EffectOf(a, host, checkHost).Refuse? ==> a.verb == Navigate
    ensures EffectOf(a, host, checkHost).Skip? <==>
      || (a.verb == Verb.Click && !Given(a.selector))
      || (a.verb == Verb.Fill && !(Given(a.selector) && a.value.Some?))
      || a.verb == Finish || a.verb.Unknown?
  {
  }

  /** The check only ever turns a run into a refusal: what a checked action
      does, when it does not throw, the unchecked one does too. */
  lemma CheckOnlyRefuses(a: Action, host: Option<string>)
    ensures !EffectOf(a, host, true).Refuse? ==> EffectOf(a, host, true) == EffectOf(a, host, false)
    ensures a.verb != Navigate ==> EffectOf(a, host, true) == EffectOf(a, host, false)
  {
  }

  /** The page operation an action performs when it runs: one or none. */
  function OpOf(a: Action, host: Option<string>, checkHost: bool): seq<Op> {
    var e := EffectOf(a, host, checkHost);
    if e.Run? then [e.op] else []
  }

  /** The page operations a history performs when nothing throws: one per
      action that runs, in order. */
  function OpsOf(history: seq<Action>, host: Option<string>, checkHost: bool): seq<Op> {
    if history == [] then []
    else OpOf(history[0], host, checkHost) + OpsOf(history[1..], host, checkHost)
  }

  /** No action of the history throws before touching the page. */
  predicate NoRefusal(history: seq<Action>, host: Option<string>, checkHost: bool) {
    forall i :: 0 <= i < |history| ==> !EffectOf(history[i], host, checkHost).Refuse?
  }

  /** Replaying one more action adds its operation, if any, at the end. */
  lemma {:induction false} OpsOfAppend(h: seq<Action>, a: Action, host: Option<string>, checkHost: bool)
    ensures OpsOf(h + [a], host, checkHost) == OpsOf(h, host, checkHost) + OpOf(a, host, checkHost)
  {
    if h == [] {
      assert [a][1..] == [];
      assert h + [a] == [a];
    } else {
      var t := h + [a];
      assert t[0] == h[0];
      assert t[1..] == h[1..] + [a];
      OpsOfAppend(h[1..], a, host, checkHost);
      var x := OpOf(h[0], host, checkHost);
      var y := OpsOf(h[1..], host, checkHost);
      var z := OpOf(a, host, checkHost);
      assert x + (y + z) == (x + y) + z;
    }
  }

  /** Extending a replayed prefix by the next action of the history adds
      that action's operation, and keeps it free of refusals when the action
      is not refused. */
  lemma PrefixStep(history: seq<Action>, i: nat, host: Option<string>, checkHost: bool)
    requires i < |history|
    ensures OpsOf(history[..i + 1], host, checkHost) == OpsOf(history[..i], host, checkHost) + OpOf(history[i], host, checkHost)
    ensures NoRefusal(history[..i], host, checkHost) && !EffectOf(history[i], host, checkHost).Refuse? ==>
      NoRefusal(history[..i + 1], host, checkHost)
  {
    assert history[..i + 1] == history[..i] + [history[i]];
    OpsOfAppend(history[..i], history[i], host, checkHost);
  }

  /** A history the checked replay accepts replays to the same operations
      without the check, so both replay loops rebuild the same page from it. */
  lemma {:induction false} CheckedReplayAgrees(history: seq<Action>, host: Option<string>)
    requires NoRefusal(history, host, true)
    ensures NoRefusal(history, host, false)
    ensures OpsOf(history, host, true) == OpsOf(history, host, false)
  {
    forall i | 0 <= i < |history| ensures !EffectOf(history[i], host, false).Refuse? {
      CheckOnlyRefuses(history[i], host);
    }
    if history != [] {
      CheckOnlyRefuses(history[0], host);
      CheckedReplayAgrees(history[1..], host);
    }
  }

  /** Each operation comes from an action of the history, and the history's
      length bounds their number. */
  lemma {:induction false} OpsOfBound(history: seq<Action>, host: Option<string>, checkHost: bool)
    ensures |OpsOf(history, host, checkHost)| <= |history|
  {
    if history != [] {
      OpsOfBound(history[1..], host, checkHost);
    }
  }
}
