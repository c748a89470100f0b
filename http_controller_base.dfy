/**
 * The HTTP controller base (src/Core/Bases/Http/Controllers/BaseController.php):
 * its constructor applies the controller's output type to the response, and
 * responseFlow runs the request lifecycle around the routed method and
 * records a boolean result as the response's success status.
 */
module HttpControllerBase {
  import opened Wrappers
  import opened Php
  import opened HttpContext

  /**
   * One entry of responseFlow's trail: a call on the response, or a step of
   * the lifecycle (which is followed by the calls that step makes).
   */
  datatype Step =
    | Write(event: Event)
    | DefaultInitialize
    | Initialize
    | Invoke(methodName: string, parameters: seq<Value>)
    | Finalize
    | DefaultFinalize

  /** What a controller's initialize and finalize hooks do to the response. */
  datatype Hooks = Hooks(initialize: seq<Event>, finalize: seq<Event>)

  /** The values assignDefaults reads: the request root, the application name, whether the environment is local, the logged-in user and the localization's right-to-left flag. */
  datatype Defaults = Defaults(root: Value, siteName: Value, local: bool, user: Value, rtl: Value)

  const DefaultKeys: seq<string> := ["__root", "__siteName", "__local", "__login", "__rtl"]

  /** The assignments assignDefaults makes, in order. */
  function DefaultAssignments(d: Defaults): (events: seq<Event>)
    ensures |events| == |DefaultKeys|
    ensures forall i :: 0 <= i < |events| ==> events[i].Assign? && events[i].key == DefaultKeys[i]
    ensures AssignedKeys(events) == DefaultKeys
    ensures Event.Assign("__login", d.user) in events
  {
    var events := [Event.Assign("__root", d.root), Event.Assign("__siteName", d.siteName),
                   Event.Assign("__local", Bool(d.local)), Event.Assign("__login", d.user),
                   Event.Assign("__rtl", d.rtl)];
    assert AssignedKeys(events[4..]) == ["__rtl"];
    assert AssignedKeys(events[3..]) == ["__login", "__rtl"];
    assert AssignedKeys(events[2..]) == ["__local", "__login", "__rtl"];
    assert AssignedKeys(events[1..]) == ["__siteName", "__local", "__login", "__rtl"];
    events
  }

  /** The success status responseFlow records: only a strictly boolean result is recorded. */
  function RecordedStatus(returned: Value): (status: Option<bool>)
    ensures status.Some? <==> returned.Bool?
    ensures status.Some? ==> returned == Bool(status.value)
  {
    match returned
    case Bool(b) => Some(b)
    case _ => None
  }

  /** The success assignment, when there is a status to record. */
  function SuccessEvents(returned: Value): seq<Event>
  {
    match RecordedStatus(returned)
    case Some(b) => [Event.Assign("success", Bool(b))]
    case None => []
  }

  /** Calls on the response, as trail entries. */
  function Writes(events: seq<Event>): (steps: seq<Step>)
    ensures |steps| == |events|
    ensures forall i :: 0 <= i < |steps| ==> steps[i] == Write(events[i])
  {
    seq(|events|, i requires 0 <= i < |events| => Write(events[i]))
  }

  /** The calls on the response a trail records, in order. */
  function Written(trail: seq<Step>): seq<Event>
    decreases |trail|
  {
    if trail == [] then []
    else (if trail[0].Write? then [trail[0].event] else []) + Written(trail[1..])
  }

  /** The lifecycle steps of a trail, in order. */
  function Markers(trail: seq<Step>): seq<Step>
    decreases |trail|
  {
    if trail == [] then []
    else (if trail[0].Write? then [] else [trail[0]]) + Markers(trail[1..])
  }

  lemma {:induction false} WrittenAppend(a: seq<Step>, b: seq<Step>)
    ensures Written(a + b) == Written(a) + Written(b)
    decreases |a|
  {
    if a == [] {
      assert a + b == b;
    } else {
      assert (a + b)[0] == a[0];
      assert (a + b)[1..] == a[1..] + b;
      WrittenAppend(a[1..], b);
    }
  }

  lemma {:induction false} MarkersAppend(a: seq<Step>, b: seq<Step>)
    ensures Markers(a + b) == Markers(a) + Markers(b)
    decreases |a|
  {
    if a == [] {
      assert a + b == b;
    } else {
      assert (a + b)[0] == a[0];
      assert (a + b)[1..] == a[1..] + b;
      MarkersAppend(a[1..], b);
    }
  }

  lemma {:induction false} WrittenWrites(events: seq<Event>)
    ensures Written(Writes(events)) == events
    ensures Markers(Writes(events)) == []
    decreases |events|
  {
    if events != [] {
      assert Writes(events)[1..] == Writes(events[1..]);
      WrittenWrites(events[1..]);
    }
  }

  /** A lifecycle step followed by its calls adds the step to the markers and the calls to the writes. */
  lemma AppendStep(trail: seq<Step>, marker: Step, calls: seq<Event>)
    requires !marker.Write?
    ensures Written(trail + [marker] + Writes(calls)) == Written(trail) + calls
    ensures Markers(trail + [marker] + Writes(calls)) == Markers(trail) + [marker]
  {
    WrittenWrites(calls);
    var one: seq<Step> := [marker];
    assert one[0] == marker && one[1..] == [];
    assert Markers(one[1..]) == [] && Written(one[1..]) == [];
    assert Written(one) == [] && Markers(one) == [marker];
    WrittenAppend(trail, [marker]);
    WrittenAppend(trail + [marker], Writes(calls));
    MarkersAppend(trail, [marker]);
    MarkersAppend(trail + [marker], Writes(calls));
  }

  /**
   * responseFlow's trail: the defaults, the default controller's and this
   * controller's initialize, the routed method, this controller's and the
   * default controller's finalize, each step followed by what it writes,
   * then the success status.
   */
  function FlowTrail(d: Defaults, defaultHooks: Hooks, hooks: Hooks, methodName: string, parameters: seq<Value>,
                     returned: Value, methodWrites: seq<Event>): seq<Step>
  {
    Writes(DefaultAssignments(d))
    + [DefaultInitialize] + Writes(defaultHooks.initialize)
    + [Initialize] + Writes(hooks.initialize)
    + [Invoke(methodName, parameters)] + Writes(methodWrites)
    + [Finalize] + Writes(hooks.finalize)
    + [DefaultFinalize] + Writes(defaultHooks.finalize)
    + Writes(SuccessEvents(returned))
  }

  /** The response receives the defaults, every hook's writes and the method's, then the success status, in that order. */
  lemma FlowWritten(d: Defaults, defaultHooks: Hooks, hooks: Hooks, methodName: string, parameters: seq<Value>,
                    returned: Value, methodWrites: seq<Event>)
    ensures Written(FlowTrail(d, defaultHooks, hooks, methodName, parameters, returned, methodWrites))
         == DefaultAssignments(d) + defaultHooks.initialize + hooks.initialize + methodWrites
            + hooks.finalize + defaultHooks.finalize + SuccessEvents(returned)
  {
    var p0 := Writes(DefaultAssignments(d));
    var p1 := p0 + [DefaultInitialize] + Writes(defaultHooks.initialize);
    var p2 := p1 + [Initialize] + Writes(hooks.initialize);
    var p3 := p2 + [Invoke(methodName, parameters)] + Writes(methodWrites);
    var p4 := p3 + [Finalize] + Writes(hooks.finalize);
    var p5 := p4 + [DefaultFinalize] + Writes(defaultHooks.finalize);
    WrittenWrites(DefaultAssignments(d));
    AppendStep(p0, DefaultInitialize, defaultHooks.initialize);
    AppendStep(p1, Initialize, hooks.initialize);
    AppendStep(p2, Invoke(methodName, parameters), methodWrites);
    AppendStep(p3, Finalize, hooks.finalize);
    AppendStep(p4, DefaultFinalize, defaultHooks.finalize);
    WrittenWrites(SuccessEvents(returned));
    WrittenAppend(p5, Writes(SuccessEvents(returned)));
  }

  /** The five lifecycle steps come in order, this controller nested inside the default one. */
  lemma FlowMarkers(d: Defaults, defaultHooks: Hooks, hooks: Hooks, methodName: string, parameters: seq<Value>,
                    returned: Value, methodWrites: seq<Event>)
    ensures Markers(FlowTrail(d, defaultHooks, hooks, methodName, parameters, returned, methodWrites))
         == [DefaultInitialize, Initialize, Invoke(methodName, parameters), Finalize, DefaultFinalize]
  {
    var p0 := Writes(DefaultAssignments(d));
    var p1 := p0 + [DefaultInitialize] + Writes(defaultHooks.initialize);
    var p2 := p1 + [Initialize] + Writes(hooks.initialize);
    var p3 := p2 + [Invoke(methodName, parameters)] + Writes(methodWrites);
    var p4 := p3 + [Finalize] + Writes(hooks.finalize);
    var p5 := p4 + [DefaultFinalize] + Writes(defaultHooks.finalize);
    WrittenWrites(DefaultAssignments(d));
    AppendStep(p0, DefaultInitialize, defaultHooks.initialize);
    assert Markers(p1) == [DefaultInitialize];
    AppendStep(p1, Initialize, hooks.initialize);
    assert Markers(p2) == [DefaultInitialize, Initialize];
    AppendStep(p2, Invoke(methodName, parameters), methodWrites);
    assert Markers(p3) == [DefaultInitialize, Initialize, Invoke(methodName, parameters)];
    AppendStep(p3, Finalize, hooks.finalize);
    assert Markers(p4) == [DefaultInitialize, Initialize, Invoke(methodName, parameters), Finalize];
    AppendStep(p4, DefaultFinalize, defaultHooks.finalize);
    assert Markers(p5) == [DefaultInitialize, Initialize, Invoke(methodName, parameters), Finalize, DefaultFinalize];
    WrittenWrites(SuccessEvents(returned));
    MarkersAppend(p5, Writes(SuccessEvents(returned)));
    assert FlowTrail(d, defaultHooks, hooks, methodName, parameters, returned, methodWrites)
        == p5 + Writes(SuccessEvents(returned));
  }

  /**
   * The defaults open the trail; the default controller's finalize and its
   * writes close it, followed only by the success status when the routed
   * method returned true or false.
   */
  lemma FlowEnds(d: Defaults, defaultHooks: Hooks, hooks: Hooks, methodName: string, parameters: seq<Value>,
                 returned: Value, methodWrites: seq<Event>)
    ensures var trail := FlowTrail(d, defaultHooks, hooks, methodName, parameters, returned, methodWrites);
      && |trail| > |DefaultKeys| + |defaultHooks.finalize|
      && trail[..|DefaultKeys|] == Writes(DefaultAssignments(d))
      && (returned.Bool? ==> && trail[|trail| - 1] == Write(Event.Assign("success", returned))
                             && trail[|trail| - 2 - |defaultHooks.finalize|] == DefaultFinalize)
      && (!returned.Bool? ==> trail[|trail| - 1 - |defaultHooks.finalize|] == DefaultFinalize)
  {
    var p0 := Writes(DefaultAssignments(d));
    var middle := [DefaultInitialize] + Writes(defaultHooks.initialize)
      + [Initialize] + Writes(hooks.initialize)
      + [Invoke(methodName, parameters)] + Writes(methodWrites)
      + [Finalize] + Writes(hooks.finalize);
    var tail := [DefaultFinalize] + Writes(defaultHooks.finalize) + Writes(SuccessEvents(returned));
    var trail := FlowTrail(d, defaultHooks, hooks, methodName, parameters, returned, methodWrites);
    assert trail == p0 + middle + tail;
    assert trail[..|DefaultKeys|] == p0;
    assert trail[|p0| + |middle|..] == tail;
  }

  /**
   * The order responseFlow promises: the defaults are assigned before
   * anything else; the five lifecycle steps come in order (this controller
   * nested inside the default one); the success status is assigned last,
   * after the default controller is finalized, exactly when the routed method
   * returned true or false. The response receives every write, in that order.
   */
  lemma FlowOrder(d: Defaults, defaultHooks: Hooks, hooks: Hooks, methodName: string, parameters: seq<Value>,
                  returned: Value, methodWrites: seq<Event>)
    ensures var trail := FlowTrail(d, defaultHooks, hooks, methodName, parameters, returned, methodWrites);
      && Markers(trail) == [DefaultInitialize, Initialize, Invoke(methodName, parameters), Finalize, DefaultFinalize]
      && trail[..|DefaultKeys|] == Writes(DefaultAssignments(d))
      && (returned.Bool? ==> && trail[|trail| - 1] == Write(Event.Assign("success", returned))
                             && trail[|trail| - 2 - |defaultHooks.finalize|] == DefaultFinalize)
      && (!returned.Bool? ==> trail[|trail| - 1 - |defaultHooks.finalize|] == DefaultFinalize)
      && Written(trail) == DefaultAssignments(d) + defaultHooks.initialize + hooks.initialize + methodWrites
                           + hooks.finalize + defaultHooks.finalize + SuccessEvents(returned)
  {
    FlowWritten(d, defaultHooks, hooks, methodName, parameters, returned, methodWrites);
    FlowMarkers(d, defaultHooks, hooks, methodName, parameters, returned, methodWrites);
    FlowEnds(d, defaultHooks, hooks, methodName, parameters, returned, methodWrites);
  }

  class Controller {
    const response: Response
    /** This controller's initialize and finalize hooks. */
    const hooks: Hooks
    /** The controller's methods, by name: what each returns for the given parameters and what it writes to the response. */
    const methods: (string, seq<Value>) -> (Value, seq<Event>)

    /** The constructor: the controller's output type overrides the response's only when it is set. */
    constructor (response: Response, outputType: Option<int>, hooks: Hooks, methods: (string, seq<Value>) -> (Value, seq<Event>))
      modifies response
      ensures this.response == response && this.hooks == hooks && this.methods == methods
      ensures response.outputType == (if outputType.Some? then outputType.value else old(response.outputType))
      ensures response.events == old(response.events)
    {
      this.response := response;
      this.hooks := hooks;
      this.methods := methods;
      if outputType.Some? {
        response.outputType := outputType.value;
      }
    }

    /**
     * responseFlow: assign the defaults, initialize the default controller
     * (whose hooks are given) and this one, call the routed method, finalize
     * both in reverse order, record a boolean result as the success status,
     * and answer with the response. The trail interleaves the lifecycle steps
     * with the calls on the response.
     */
    method ResponseFlow(defaults: Defaults, defaultHooks: Hooks, methodName: string, parameters: seq<Value>)
      returns (trail: seq<Step>, result: seq<Event>)
      modifies response
      ensures trail == FlowTrail(defaults, defaultHooks, hooks, methodName, parameters,
                                 methods(methodName, parameters).0, methods(methodName, parameters).1)
      ensures response.events == old(response.events) + Written(trail)
      ensures result == response.events
      ensures response.outputType == old(response.outputType)
    {
      trail := AssignDefaults(old(response.events), defaults);
      trail := RunStep(old(response.events), trail, DefaultInitialize, defaultHooks.initialize);
      trail := RunStep(old(response.events), trail, Initialize, hooks.initialize);
      var (returned, methodWrites) := methods(methodName, parameters);
      trail := RunStep(old(response.events), trail, Invoke(methodName, parameters), methodWrites);
      trail := RunStep(old(response.events), trail, Finalize, hooks.finalize);
      trail := RunStep(old(response.events), trail, DefaultFinalize, defaultHooks.finalize);
      trail := RecordSuccess(old(response.events), trail, returned);
      result := response.events;
    }

    /** assignDefaults: the five default assignments, as the trail's first entries. */
    method AssignDefaults(ghost start: seq<Event>, defaults: Defaults) returns (trail: seq<Step>)
      requires response.events == start
      modifies response
      ensures trail == Writes(DefaultAssignments(defaults))
      ensures response.events == start + Written(trail)
      ensures response.outputType == old(response.outputType)
    {
      response.Assign("__root", defaults.root);
      response.Assign("__siteName", defaults.siteName);
      response.Assign("__local", Bool(defaults.local));
      response.Assign("__login", defaults.user);
      response.Assign("__rtl", defaults.rtl);
      trail := Writes(DefaultAssignments(defaults));
      assert response.events == start + DefaultAssignments(defaults);
      WrittenWrites(DefaultAssignments(defaults));
    }

    /** The success status: assigned only when the routed method returned true or false. */
    method RecordSuccess(ghost start: seq<Event>, before: seq<Step>, returned: Value) returns (after: seq<Step>)
      requires response.events == start + Written(before)
      modifies response
      ensures after == before + Writes(SuccessEvents(returned))
      ensures response.events == start + Written(after)
      ensures response.outputType == old(response.outputType)
    {
      if returned.Bool? {
        response.Assign("success", returned);
      }
      WrittenWrites(SuccessEvents(returned));
      WrittenAppend(before, Writes(SuccessEvents(returned)));
      after := before + Writes(SuccessEvents(returned));
    }

    /** One lifecycle step: the marker, then the calls the step makes on the response. */
    method RunStep(ghost start: seq<Event>, before: seq<Step>, marker: Step, calls: seq<Event>) returns (after: seq<Step>)
      requires !marker.Write?
      requires response.events == start + Written(before)
      modifies response
      ensures after == before + [marker] + Writes(calls)
      ensures response.events == start + Written(after)
      ensures response.outputType == old(response.outputType)
    {
      response.Receive(calls);
      after := before + [marker] + Writes(calls);
      AppendStep(before, marker, calls);
    }
  }
}
