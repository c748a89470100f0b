/**
 * The logging controller (src/Core/Foundation/Controllers/LogController.php):
 * postLog dispatches on the lower-cased log type to the error, event,
 * pageview and ecommerce handlers; each builds its log from the request
 * input, answers false without logging when the log's validation fails, and
 * otherwise logs it and answers true. Unknown types answer false.
 */
module LogController {
  import opened Wrappers
  import opened Text
  import opened Php

  type Fields = map<string, Value>

  /** One ecommerce item of the request, decoded, with the outcome of its validation. */
  datatype Item = Item(fields: Fields, invalid: bool)

  /**
   * The request input: the posted fields, the outcome of validating the log
   * built from them, the host and path parse_url finds in the url, and the
   * ecommerce items.
   */
  datatype Request = Request(fields: Fields, invalid: bool, urlHost: Option<string>, urlPath: Option<string>, items: seq<Item>)

  /** A log as it is handed to the logging backend. */
  datatype Record =
    | ErrorRecord(kind: string, message: Value, code: Value, file: Value, line: Value)
    | EventRecord(fields: Fields)
    | PageviewRecord(fields: Fields, host: Option<string>, path: string)
    | EcommerceRecord(fields: Fields, items: seq<Fields>)

  const EventKeys: set<string> := {"category", "action", "name", "value"}
  const PageviewKeys: set<string> := {"url", "referrer"}
  const EcommerceKeys: set<string> := {"id", "revenue", "subtotal", "shipping", "tax", "discount", "previous"}
  const ItemKeys: set<string> := {"id", "category", "name", "price", "quantity"}

  /** input->only / array_only: the fields with the listed keys. */
  function Only(fields: Fields, keys: set<string>): (kept: Fields)
    ensures kept.Keys == fields.Keys * keys
    ensures forall k :: k in kept ==> kept[k] == fields[k]
  {
    map k | k in fields && k in keys :: fields[k]
  }

  /** An input value with its fallback when it is absent. */
  function WithFallback(fields: Fields, key: string, fallback: Value): Value
  {
    if key in fields then fields[key] else fallback
  }

  /**
   * The pageview path rule: an absent, falsy or relative path gets a leading
   * '/', an absolute one is kept.
   */
  function RootedPath(path: Option<string>): (rooted: string)
    ensures |rooted| >= 1 && rooted[0] == '/'
    ensures path.Some? && |path.value| >= 1 && path.value[0] == '/' ==> rooted == path.value
    ensures path.None? ==> rooted == "/"
    ensures path.Some? && (|path.value| == 0 || path.value[0] != '/') ==> rooted == "/" + path.value
  {
    var p := if path.None? then "" else path.value;
    if !Truthy(Str(p)) || p[0] != '/' then "/" + p else p
  }

  /** Rooting a rooted path changes nothing. */
  lemma RootedPathIdempotent(path: Option<string>)
    ensures RootedPath(Some(RootedPath(path))) == RootedPath(path)
  {
  }

  /** "0" is falsy in PHP, and so is rooted like a relative path. */
  lemma RootedPathOfZero()
    ensures RootedPath(Some("0")) == "/0"
  {
  }

  /** The valid items, each cut down to the item keys, in order. */
  function ValidItems(items: seq<Item>): seq<Fields>
    decreases |items|
  {
    if items == [] then []
    else
      var last := items[|items| - 1];
      ValidItems(items[..|items| - 1]) + (if last.invalid then [] else [Only(last.fields, ItemKeys)])
  }

  /** Exactly the valid items are kept, and none is invented. */
  lemma {:induction false} ValidItemsMembers(items: seq<Item>)
    ensures |ValidItems(items)| <= |items|
    ensures (forall i :: 0 <= i < |items| ==> !items[i].invalid) ==> |ValidItems(items)| == |items|
    ensures (forall i :: 0 <= i < |items| ==> items[i].invalid) ==> ValidItems(items) == []
    ensures forall f :: f in ValidItems(items) ==> exists i :: 0 <= i < |items| && !items[i].invalid && f == Only(items[i].fields, ItemKeys)
    decreases |items|
  {
    if items != [] {
      var init := items[..|items| - 1];
      ValidItemsMembers(init);
      forall f | f in ValidItems(items)
        ensures exists i :: 0 <= i < |items| && !items[i].invalid && f == Only(items[i].fields, ItemKeys)
      {
        if f in ValidItems(init) {
          var i :| 0 <= i < |init| && !init[i].invalid && f == Only(init[i].fields, ItemKeys);
          assert items[i] == init[i];
        } else {
          assert f == Only(items[|items| - 1].fields, ItemKeys);
        }
      }
    }
  }

  /** The ecommerce item loop: keeps the items that validate, in order. */
  method KeepValidItems(items: seq<Item>) returns (kept: seq<Fields>)
    ensures kept == ValidItems(items)
  {
    kept := [];
    var i := 0;
    while i < |items|
      invariant 0 <= i <= |items|
      invariant kept == ValidItems(items[..i])
    {
      assert items[..i + 1][..i] == items[..i];
      var logItem := Only(items[i].fields, ItemKeys);
      if !items[i].invalid {
        kept := kept + [logItem];
      }
      i := i + 1;
    }
    assert items[..i] == items;
  }

  /** What a handler logs: nothing when the log does not validate. */
  function Process(logType: string, request: Request): Option<Record>
  {
    if request.invalid then None
    else if logType == "error" then
      Some(ErrorRecord("Javascript", WithFallback(request.fields, "message", Null), WithFallback(request.fields, "code", Int(0)),
                       WithFallback(request.fields, "file", Str("")), WithFallback(request.fields, "line", Int(0))))
    else if logType == "event" then Some(EventRecord(Only(request.fields, EventKeys)))
    else if logType == "pageview" then
      Some(PageviewRecord(Only(request.fields, PageviewKeys), request.urlHost, RootedPath(request.urlPath)))
    else if logType == "ecommerce" then Some(EcommerceRecord(Only(request.fields, EcommerceKeys), ValidItems(request.items)))
    else None
  }

  predicate KnownType(logType: string)
  {
    logType in {"error", "event", "pageview", "ecommerce"}
  }

  /**
   * postLog: answers true exactly when the lower-cased type is known and its
   * log validates, and then logs one record of that type.
   */
  function PostLogOutcome(logType: string, request: Request): (outcome: (bool, Option<Record>))
    ensures outcome.0 <==> KnownType(Lower(logType)) && !request.invalid
    ensures outcome.0 <==> outcome.1.Some?
    ensures outcome.1.Some? ==> match outcome.1.value
                                case ErrorRecord(_, _, _, _, _) => Lower(logType) == "error"
                                case EventRecord(_) => Lower(logType) == "event"
                                case PageviewRecord(_, _, _) => Lower(logType) == "pageview"
                                case EcommerceRecord(_, _) => Lower(logType) == "ecommerce"
  {
    var record := Process(Lower(logType), request);
    (record.Some?, record)
  }

  /** The type is matched case-insensitively. */
  lemma TypeIsCaseInsensitive(logType: string, request: Request)
    ensures PostLogOutcome(logType, request) == PostLogOutcome(Lower(logType), request)
  {
    LowerIdempotent(logType);
  }

  class LogController {
    /** The records logged so far, oldest first. */
    var logged: seq<Record>

    constructor ()
      ensures logged == []
    {
      logged := [];
    }

    method PostLog(logType: string, request: Request) returns (ok: bool)
      modifies this
      ensures ok == PostLogOutcome(logType, request).0
      ensures var record := PostLogOutcome(logType, request).1;
              logged == old(logged) + (if record.Some? then [record.value] else [])
    {
      var t := Lower(logType);
      var record: Option<Record> := None;
      if t == "ecommerce" {
        if !request.invalid {
          var items := KeepValidItems(request.items);
          record := Some(EcommerceRecord(Only(request.fields, EcommerceKeys), items));
        }
      } else {
        record := Process(t, request);
      }
      ok := record.Some?;
      if record.Some? {
        logged := logged + [record.value];
      }
    }
  }
}
