/**
  Resources, their states and the generators that change them
  (heat/engine/resource.py), and the stacks that own them.
*/
module Resources {
  import opened Wrappers

  datatype Action = INIT | CREATE | DELETE | UPDATE | ROLLBACK | SUSPEND | RESUME | ADOPT

  datatype Status = IN_PROGRESS | FAILED | COMPLETE

  datatype State = State(action: Action, status: Status)

  /** A resource that exists, or may exist: not (INIT, COMPLETE) and not (DELETE, COMPLETE). */
  predicate Live(s: State) {
    s != State(INIT, COMPLETE) && s != State(DELETE, COMPLETE)
  }

  type Name = string

  class Resource {
    const name: Name
    var state: State
    var stack: Stack

    constructor (n: Name, s: State, owner: Stack)
      ensures name == n && state == s && stack == owner
    {
      name, state, stack := n, s, owner;
    }

    method StateSet(action: Action, status: Status)
      modifies this`state
      ensures state == State(action, status)
    {
      state := State(action, status);
    }
  }

  class Stack {
    var resources: map<Name, Resource>

    constructor ()
      ensures resources == map[]
    {
      resources := map[];
    }

    /** __setitem__: the stack becomes the owner of the resource. */
    method SetItem(key: Name, resource: Resource)
      modifies this, resource`stack
      ensures resources == old(resources)[key := resource]
      ensures resource.stack == this
    {
      resource.stack := this;
      resources := resources[key := resource];
    }

    /** __delitem__ */
    method DelItem(key: Name)
      requires key in resources
      modifies this
      ensures resources == old(resources) - {key}
    {
      resources := resources - {key};
    }
  }

  // ---------------------------------------------------------------- actions as generators

  datatype DeletionPolicy = Delete | Retain | Snapshot

  /** What a generator runs: _do_action for some action, or delete. */
  datatype Kind = DoAction(action: Action) | DeleteWith(policy: DeletionPolicy)

  /** How a call into the resource plugin ends. A base exception is not an Exception. */
  datatype Call = Returned(result: bool) | Raised

  /** What the driver of a generator may do to it. */
  datatype Event =
    | Next(preFunc: Call, handle: Call, check: Call)
    | Throw
    | Close

  datatype Pc = Unstarted | Polling | Ended

  /**
    A generator and the state of its resource. handles and checks say whether
    the plugin declares the handler and the completion check; handled and
    checked say whether they have finished, raised whether an exception has
    left the body.
  */
  datatype Generator = Generator(
    kind: Kind, handles: bool, checks: bool,
    pc: Pc, handled: bool, checked: bool, raised: bool, state: State)

  function ActionOf(k: Kind): Action {
    match k
    case DoAction(a) => a
    case DeleteWith(_) => DELETE
  }

  /** delete does nothing for a resource that was deleted or never created. */
  predicate Skips(g: Generator) {
    g.kind.DeleteWith? && (g.state == State(DELETE, COMPLETE) || g.state.action == INIT)
  }

  /** Whether the handler is called: a resource that is to be retained is not touched. */
  predicate CallsHandler(g: Generator) {
    g.handles && g.kind != DeleteWith(Retain)
  }

  /** _do_action checks for completion only after calling a handler; delete also without one. */
  predicate CallsCheck(g: Generator) {
    g.checks && match g.kind
                case DoAction(_) => g.handles
                case DeleteWith(policy) => policy != Retain
  }

  function Aborted(g: Generator): Generator {
    g.(pc := Ended, raised := true, state := State(ActionOf(g.kind), FAILED))
  }

  /** From the loop that polls for completion to the next yield or the end. */
  function Polled(g: Generator, check: Call): Generator {
    if !CallsCheck(g) then g.(pc := Ended, state := State(ActionOf(g.kind), COMPLETE))
    else match check
      case Raised => Aborted(g)
      case Returned(false) => g.(pc := Polling)
      case Returned(true) => g.(pc := Ended, checked := true, state := State(ActionOf(g.kind), COMPLETE))
  }

  /** From the start of the body to the first yield or the end. */
  function Entered(g: Generator, preFunc: Call, handle: Call, check: Call): Generator {
    if Skips(g) then g.(pc := Ended)
    else
      var h := g.(state := State(ActionOf(g.kind), IN_PROGRESS));
      if g.kind.DoAction? && preFunc.Raised? then Aborted(h)
      else if !CallsHandler(h) then Polled(h, check)
      else if handle.Raised? then Aborted(h)
      else h.(pc := Polling, handled := true)
  }

  function Driven(g: Generator, e: Event): Generator {
    match (g.pc, e)
    case (Unstarted, Next(p, h, c)) => Entered(g, p, h, c)
    case (Polling, Next(_, _, c)) => Polled(g, c)
    case (Unstarted, _) => g.(pc := Ended)
    case (Polling, _) => Aborted(g)
    case (Ended, _) => g
  }

  function DrivenBy(g: Generator, es: seq<Event>): Generator {
    if es == [] then g else Driven(DrivenBy(g, es[..|es| - 1]), es[|es| - 1])
  }

  /** The generator was advanced at least once: the first event was a next. */
  predicate Advanced(es: seq<Event>) {
    es != [] && es[0].Next?
  }

  /** Everything the plugin declares for this action has finished. */
  predicate WorkDone(g: Generator) {
    (CallsHandler(g) ==> g.handled) && (CallsCheck(g) ==> g.checked)
  }

  predicate JustMade(g: Generator) {
    g.pc.Unstarted? && !g.handled && !g.checked && !g.raised
  }

  /** After some events: what the resource's state says about the generator. */
  ghost predicate Consistent(g0: Generator, es: seq<Event>, g: Generator) {
    && g == g0.(pc := g.pc, handled := g.handled, checked := g.checked, raised := g.raised, state := g.state)
    && (g.pc.Unstarted? <==> es == [])
    && (es != [] && !Advanced(es) ==> g.pc.Ended? && g.state == g0.state)
    && (g.pc.Polling? ==>
          && !Skips(g0) && g.state == State(ActionOf(g0.kind), IN_PROGRESS)
          && !g.checked && !g.raised && (CallsHandler(g) ==> g.handled))
    && (es == [] ==> g == g0)
    && (Advanced(es) && g.pc.Ended? ==>
          if Skips(g0) then g.state == g0.state && !g.raised
          else g.state == State(ActionOf(g0.kind), if g.raised then FAILED else COMPLETE) && (WorkDone(g) || g.raised))
  }

  lemma {:induction false} EventsKeepConsistent(g0: Generator, es: seq<Event>)
    requires JustMade(g0)
    ensures Consistent(g0, es, DrivenBy(g0, es))
  {
    if es != [] {
      var n := |es| - 1;
      EventsKeepConsistent(g0, es[..n]);
      assert n > 0 ==> es[..n][0] == es[0];
    }
  }

  // ---------------------------------------------------------------- what the events say

  /** The first next, if neither the function called before the handler nor the handler raises. */
  predicate Begins(g: Generator, e: Event) {
    e.Next? && (g.kind.DoAction? ==> e.preFunc.Returned?) && (CallsHandler(g) ==> e.handle.Returned?)
  }

  /** The number of the event with which checking for completion begins: the handler is followed by a yield. */
  function FirstCheck(g: Generator): nat {
    if CallsHandler(g) then 1 else 0
  }

  /** Event number j is a next, and if it comes to the check that says: not yet. */
  predicate Waits(g: Generator, e: Event, j: nat) {
    e.Next? && (FirstCheck(g) <= j ==> CallsCheck(g) && e.check == Returned(false))
  }

  /** All events before number i wait. */
  predicate WaitsUntil(g: Generator, es: seq<Event>, i: nat)
    requires i <= |es|
  {
    forall j :: 0 <= j < i ==> Waits(g, es[j], j)
  }

  predicate CompletesAt(g: Generator, es: seq<Event>, i: nat) {
    && FirstCheck(g) <= i < |es| && WaitsUntil(g, es, i)
    && es[i].Next? && (CallsCheck(g) ==> es[i].check == Returned(true))
  }

  predicate BreaksAt(g: Generator, es: seq<Event>, i: nat) {
    && i < |es| && WaitsUntil(g, es, i)
    && (es[i].Next? ==> FirstCheck(g) <= i && CallsCheck(g) && es[i].check.Raised?)
  }

  /** The work began, and at some event all of it was found complete. */
  ghost predicate Completes(g: Generator, es: seq<Event>) {
    es != [] && Begins(g, es[0]) && exists i :: CompletesAt(g, es, i)
  }

  /** A call that was made has raised, or the driver threw an exception in or closed the generator, before that. */
  ghost predicate Breaks(g: Generator, es: seq<Event>) {
    es != [] && (!Begins(g, es[0]) || exists i :: BreaksAt(g, es, i))
  }

  /** What the events so far have decided. */
  ghost predicate Decides(g0: Generator, es: seq<Event>, g: Generator) {
    && es != []
    && (g.handled <==> CallsHandler(g0) && Begins(g0, es[0]))
    && match g.pc
       case Unstarted => false
       case Polling => Begins(g0, es[0]) && WaitsUntil(g0, es, |es|) && !g.checked
       case Ended =>
         if g.raised then Breaks(g0, es) && !g.checked
         else Completes(g0, es) && (g.checked <==> CallsCheck(g0))
  }

  lemma {:induction false} EventsDecide(g0: Generator, es: seq<Event>)
    requires JustMade(g0) && Advanced(es) && !Skips(g0)
    ensures Decides(g0, es, DrivenBy(g0, es))
  {
    var n := |es| - 1;
    if n == 0 {
      assert DrivenBy(g0, es[..0]) == g0;
      var check := es[0].check;
      assert !CallsHandler(g0) && (!CallsCheck(g0) || check == Returned(true)) ==> CompletesAt(g0, es, 0);
      assert !CallsHandler(g0) && CallsCheck(g0) && check.Raised? ==> BreaksAt(g0, es, 0);
      assert CallsHandler(g0) || (CallsCheck(g0) && check == Returned(false)) ==> WaitsUntil(g0, es, 1);
    } else {
      assert es[..n][0] == es[0];
      EventsDecide(g0, es[..n]);
      EventsKeepConsistent(g0, es[..n]);
      DecidesNext(g0, es, DrivenBy(g0, es[..n]));
    }
  }

  /** One more event. */
  lemma DecidesNext(g0: Generator, es: seq<Event>, g: Generator)
    requires |es| > 1 && var before := es[..|es| - 1]; Decides(g0, before, g) && Consistent(g0, before, g)
    requires Advanced(es) && !Skips(g0)
    ensures Decides(g0, es, Driven(g, es[|es| - 1]))
  {
    var n := |es| - 1;
    forall i | CompletesAt(g0, es[..n], i) ensures CompletesAt(g0, es, i) {
    }
    forall i | BreaksAt(g0, es[..n], i) ensures BreaksAt(g0, es, i) {
    }
    if g.pc.Polling? {
      forall j | 0 <= j < n ensures Waits(g0, es[j], j) {
        assert Waits(g0, es[..n][j], j);
      }
      if !es[n].Next? {
        assert BreaksAt(g0, es, n);
      } else if !CallsCheck(g0) || es[n].check == Returned(true) {
        assert CompletesAt(g0, es, n);
      } else if es[n].check.Raised? {
        assert BreaksAt(g0, es, n);
      }
    }
  }

  /** Nothing is decided twice. */
  lemma DecidedOnce(g: Generator, es: seq<Event>)
    requires es != []
    ensures !(Completes(g, es) && Breaks(g, es))
    ensures WaitsUntil(g, es, |es|) && Begins(g, es[0]) ==> !Breaks(g, es) && !Completes(g, es)
  {
  }

  // ---------------------------------------------------------------- how an action ends

  /**
    Under any sequence of next, throw and close, a generator that was advanced
    and has ended leaves its resource FAILED exactly if an exception left its
    body, and otherwise COMPLETE with everything the plugin declares finished.
    Only delete may leave the resource as it was, when there is nothing to
    delete. In all other cases how the calls ended that were made, and what the
    driver did, decides which of these it is, or whether it has not ended.
  */
  lemma {:induction false} ActionSettles(g0: Generator, es: seq<Event>)
    requires JustMade(g0) && Advanced(es)
    ensures var g := DrivenBy(g0, es);
      g.pc.Ended? ==>
        if Skips(g0) then g.state == g0.state
        else g.state == State(ActionOf(g0.kind), if g.raised then FAILED else COMPLETE) && (WorkDone(g) || g.raised)
    ensures var g := DrivenBy(g0, es);
      !Skips(g0) ==>
        && (g.pc.Ended? && g.raised <==> Breaks(g0, es))
        && (g.pc.Ended? && !g.raised <==> Completes(g0, es))
        && (g.handled <==> CallsHandler(g0) && Begins(g0, es[0]))
        && (g.checked <==> CallsCheck(g0) && Completes(g0, es))
  {
    EventsKeepConsistent(g0, es);
    if !Skips(g0) {
      EventsDecide(g0, es);
      DecidedOnce(g0, es);
    }
  }

  /** The plugin is not called for a resource to be retained, and completion is not waited for without a handler. */
  lemma RetainedIsUntouched(g0: Generator, es: seq<Event>)
    requires JustMade(g0) && Advanced(es) && !Skips(g0)
    requires g0.kind == DeleteWith(Retain) || (g0.kind.DoAction? && !g0.handles && es[0].preFunc.Returned?)
    ensures DrivenBy(g0, es) == g0.(pc := Ended, state := State(ActionOf(g0.kind), COMPLETE))
  {
    ActionSettles(g0, es);
    EventsKeepConsistent(g0, es);
    assert CompletesAt(g0, es, 0);
  }

  /**
    An action that is COMPLETE has had its handler return, and then a check say
    so, if the plugin declares them. delete waits for the check even without a
    handler.
  */
  lemma CompleteMeansDone(g0: Generator, es: seq<Event>)
    requires JustMade(g0) && Advanced(es) && !Skips(g0)
    requires DrivenBy(g0, es).pc.Ended? && DrivenBy(g0, es).state.status == COMPLETE
    ensures g0.kind.DoAction? ==> es[0].preFunc.Returned?
    ensures g0.handles && g0.kind != DeleteWith(Retain) ==> es[0].handle.Returned?
    ensures g0.checks && (if g0.kind.DoAction? then g0.handles else g0.kind != DeleteWith(Retain)) ==>
              exists i :: (if g0.handles then 1 else 0) <= i < |es| && es[i].Next? && es[i].check == Returned(true)
  {
    ActionSettles(g0, es);
    EventsKeepConsistent(g0, es);
    var i :| CompletesAt(g0, es, i);
  }

  /** What was deleted or never created is left alone, whatever the plugin would do. */
  lemma NothingToDelete(g0: Generator, es: seq<Event>)
    requires JustMade(g0) && g0.kind.DeleteWith? && (!Live(g0.state) || g0.state.action == INIT)
    ensures DrivenBy(g0, es) == g0.(pc := if es == [] then Unstarted else Ended)
  {
    EventsKeepConsistent(g0, es);
  }

  /** A resource is left IN_PROGRESS only if delete found it (INIT, IN_PROGRESS), a state that nothing sets. */
  lemma {:induction false} NeverLeftInProgress(g0: Generator, es: seq<Event>)
    requires JustMade(g0) && Advanced(es) && DrivenBy(g0, es).pc.Ended?
    ensures DrivenBy(g0, es).state.status == IN_PROGRESS <==>
            g0.kind.DeleteWith? && g0.state == State(INIT, IN_PROGRESS)
  {
    EventsKeepConsistent(g0, es);
  }

  /** A generator that was never advanced leaves the state alone. */
  lemma {:induction false} UnstartedHasNoEffect(g0: Generator, es: seq<Event>)
    requires JustMade(g0) && !Advanced(es)
    ensures DrivenBy(g0, es).state == g0.state
  {
    EventsKeepConsistent(g0, es);
  }

  /** The generator object returned by _do_action or delete. */
  class ActionGenerator {
    const resource: Resource
    const kind: Kind
    const handles: bool
    const checks: bool
    var pc: Pc
    var handled: bool
    var checked: bool
    var raised: bool

    ghost function Abs(): Generator
      reads this, resource
    {
      Generator(kind, handles, checks, pc, handled, checked, raised, resource.state)
    }

    constructor (r: Resource, k: Kind, declaresHandler: bool, declaresCheck: bool)
      ensures resource == r
        && Abs() == Generator(k, declaresHandler, declaresCheck, Unstarted, false, false, false, r.state)
    {
      resource, kind, handles, checks := r, k, declaresHandler, declaresCheck;
      pc, handled, checked, raised := Unstarted, false, false, false;
    }

    /** The except clauses: mark the action as failed, and go on raising. */
    method Fail()
      modifies this, resource`state
      ensures Abs() == Aborted(old(Abs()))
    {
      resource.StateSet(ActionOf(kind), FAILED);
      raised := true;
      pc := Ended;
    }

    /** The loop that waits for completion, up to its next yield. */
    method Poll(check: Call)
      modifies this, resource`state
      ensures Abs() == Polled(old(Abs()), check)
    {
      var calls := checks && match kind
                             case DoAction(_) => handles
                             case DeleteWith(policy) => policy != Retain;
      if calls {
        match check {
          case Raised =>
            Fail();
            return;
          case Returned(complete) =>
            if !complete {
              pc := Polling;
              return;
            }
            checked := true;
        }
      }
      resource.StateSet(ActionOf(kind), COMPLETE);
      pc := Ended;
    }

    /** The body up to its first yield. */
    method Enter(preFunc: Call, handle: Call, check: Call)
      modifies this, resource`state
      ensures Abs() == Entered(old(Abs()), preFunc, handle, check)
    {
      if kind.DeleteWith? && (resource.state == State(DELETE, COMPLETE) || resource.state.action == INIT) {
        pc := Ended;
        return;
      }
      resource.StateSet(ActionOf(kind), IN_PROGRESS);
      if kind.DoAction? && preFunc.Raised? {
        Fail();
        return;
      }
      if handles && kind != DeleteWith(Retain) {
        if handle.Raised? {
          Fail();
        } else {
          handled := true;
          pc := Polling;
        }
        return;
      }
      Poll(check);
    }

    /** next(), throw() or close() on the generator. */
    method Drive(e: Event)
      modifies this, resource`state
      ensures Abs() == Driven(old(Abs()), e)
    {
      match pc {
        case Unstarted =>
          match e {
            case Next(p, h, c) => Enter(p, h, c);
            case _ => pc := Ended;
          }
        case Polling =>
          match e {
            case Next(_, _, c) => Poll(c);
            case _ => Fail();
          }
        case Ended =>
      }
    }
  }
}
