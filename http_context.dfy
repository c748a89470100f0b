/**
 * The request-wide singletons the controllers and middleware act on: the
 * Response (which records what is assigned to it and which response it is
 * told to produce) and the Visitor (who is logged in, and what the logged-in
 * user holds). Their own classes are not part of this model; only the calls
 * the core makes on them are.
 */
module HttpContext {
  import opened Wrappers
  import opened Php

  /** One call the core makes on the Response. */
  datatype Event =
    | Assign(key: string, value: Value)
    | AssignHeader(name: string, content: string)
    /** response401(), with its message when one is given. */
    | Response401(message: Option<string>)
    /** responseRedirect(...) / redirect(...) to a route read from the configuration or the environment. */
    | Redirect(target: Value)

  /** The keys assigned by a sequence of events, in order. */
  function AssignedKeys(events: seq<Event>): seq<string>
    decreases |events|
  {
    if events == [] then []
    else
      var rest := AssignedKeys(events[1..]);
      if events[0].Assign? then [events[0].key] + rest else rest
  }

  /** The keys assigned by two trails run one after the other are those of each, in order. */
  lemma {:induction false} AssignedKeysAppend(first: seq<Event>, second: seq<Event>)
    ensures AssignedKeys(first + second) == AssignedKeys(first) + AssignedKeys(second)
    decreases |first|
  {
    if first == [] {
      assert first + second == second;
    } else {
      assert (first + second)[1..] == first[1..] + second;
      AssignedKeysAppend(first[1..], second);
    }
  }

  class Response {
    /** The output type (view, JSON, ...). */
    var outputType: int
    /** The calls made on this response, oldest first. */
    var events: seq<Event>

    constructor (outputType: int)
      ensures this.outputType == outputType && events == []
    {
      this.outputType := outputType;
      events := [];
    }

    method Assign(key: string, value: Value)
      modifies this
      ensures events == old(events) + [Event.Assign(key, value)]
      ensures outputType == old(outputType)
    {
      events := events + [Event.Assign(key, value)];
    }

    method AssignHeader(name: string, value: string)
      modifies this
      ensures events == old(events) + [Event.AssignHeader(name, value)]
      ensures outputType == old(outputType)
    {
      events := events + [Event.AssignHeader(name, value)];
    }

    method Unauthorized(message: Option<string>)
      modifies this
      ensures events == old(events) + [Response401(message)]
      ensures outputType == old(outputType)
    {
      events := events + [Response401(message)];
    }

    method RedirectTo(target: Value)
      modifies this
      ensures events == old(events) + [Redirect(target)]
      ensures outputType == old(outputType)
    {
      events := events + [Redirect(target)];
    }

    /** The calls code outside this model (a controller hook, a routed method) makes on the response, in order. */
    method Receive(calls: seq<Event>)
      modifies this
      ensures events == old(events) + calls
      ensures outputType == old(outputType)
    {
      events := events + calls;
    }
  }

  class Visitor {
    var loggedIn: bool
    /** The logged-in user, or null. */
    var user: Value
    /** The right ids the user's hasRight answers true for. */
    const rights: set<string>
    /** Whether login(email, password) succeeds; the credential store is not part of this model. */
    const accepts: (Value, Value) -> bool

    constructor (loggedIn: bool, user: Value, rights: set<string>, accepts: (Value, Value) -> bool)
      ensures this.loggedIn == loggedIn && this.user == user
      ensures this.rights == rights && this.accepts == accepts
    {
      this.loggedIn := loggedIn;
      this.user := user;
      this.rights := rights;
      this.accepts := accepts;
    }

    /** login: on success the visitor is logged in as the given user. */
    method Login(email: Value, password: Value)
      modifies this
      ensures loggedIn == (old(loggedIn) || accepts(email, password))
      ensures accepts(email, password) ==> user == email
      ensures !accepts(email, password) ==> user == old(user)
    {
      if accepts(email, password) {
        loggedIn := true;
        user := email;
      }
    }
  }
}
