/**
 * The input validation structure (src/Core/Structures/Validation.php): rules
 * are created lazily by name, and getValidator renders each rule's entries
 * into a Laravel rule string ("required|max:255"), putting the rules that
 * carry a "sometimes" entry aside with their callback.
 */
module InputValidation {
  import opened Wrappers
  import opened Text
  import opened Php

  /** One entry of a rule: a key and its optional value ("max" and "255"). */
  datatype Entry = Entry(key: string, value: Option<string>)

  /** What getValidator hands to the validator: the plain rule strings, and the sometimes rules with their callbacks. */
  datatype Compiled = Compiled(rules: map<string, string>, sometimes: map<string, (string, Option<string>)>)

  /** An entry as Laravel reads it: the key, then ":value" when there is a value. */
  function RenderEntry(e: Entry): (rendered: string)
    ensures StartsWith(rendered, e.key)
    ensures e.value.None? ==> rendered == e.key
    ensures e.value.Some? ==> rendered[|e.key|..] == ":" + e.value.value
  {
    e.key + (if e.value.None? then "" else ":" + e.value.value)
  }

  /** The rendered entries other than "sometimes", in order. */
  function Rendered(entries: seq<Entry>): (vs: seq<string>)
    ensures |vs| <= |entries|
    decreases |entries|
  {
    if entries == [] then []
    else
      var e := entries[|entries| - 1];
      Rendered(entries[..|entries| - 1]) + (if e.key != "sometimes" then [RenderEntry(e)] else [])
  }

  /** The value of the last "sometimes" entry, if there is one. */
  function SometimesCallback(entries: seq<Entry>): Option<Option<string>>
    decreases |entries|
  {
    if entries == [] then None
    else
      var e := entries[|entries| - 1];
      if e.key == "sometimes" then Some(e.value) else SometimesCallback(entries[..|entries| - 1])
  }

  /** The rule string: the rendered entries joined with '|'. */
  function RuleString(entries: seq<Entry>): string
  {
    Join(Rendered(entries), "|")
  }

  /** A rule string gives back its rendered entries when no key or value holds '|'. */
  lemma RuleStringRoundTrip(entries: seq<Entry>)
    requires Rendered(entries) != []
    requires forall i :: 0 <= i < |entries| ==> '|' !in RenderEntry(entries[i])
    ensures Split(RuleString(entries), '|') == Rendered(entries)
  {
    RenderedAvoids(entries, '|');
    SplitJoin(Rendered(entries), '|');
  }

  lemma {:induction false} RenderedAvoids(entries: seq<Entry>, c: char)
    requires forall i :: 0 <= i < |entries| ==> c !in RenderEntry(entries[i])
    ensures NoPartContains(Rendered(entries), c)
    decreases |entries|
  {
    if entries != [] {
      RenderedAvoids(entries[..|entries| - 1], c);
    }
  }

  /** The compilation of the given names in order; names without a rule are skipped. */
  function Compile(rules: map<string, seq<Entry>>, names: seq<string>): Compiled
    decreases |names|
  {
    if names == [] then Compiled(map[], map[])
    else
      var c := Compile(rules, names[..|names| - 1]);
      var name := names[|names| - 1];
      if name !in rules then c
      else
        match SometimesCallback(rules[name])
        case None => Compiled(c.rules[name := RuleString(rules[name])], c.sometimes)
        case Some(callback) => Compiled(c.rules, c.sometimes[name := (RuleString(rules[name]), callback)])
  }

  /**
   * Each listed name with a rule lands in exactly one of the two maps: the
   * sometimes map when its rule has a "sometimes" entry, the plain map
   * otherwise, each with its rule string.
   */
  lemma {:induction false} CompilePlacesEachName(rules: map<string, seq<Entry>>, names: seq<string>, name: string)
    ensures name in Compile(rules, names).rules
            <==> name in names && name in rules && SometimesCallback(rules[name]).None?
    ensures name in Compile(rules, names).sometimes
            <==> name in names && name in rules && SometimesCallback(rules[name]).Some?
    ensures name in Compile(rules, names).rules ==> Compile(rules, names).rules[name] == RuleString(rules[name])
    ensures name in Compile(rules, names).sometimes
            ==> Compile(rules, names).sometimes[name] == (RuleString(rules[name]), SometimesCallback(rules[name]).value)
    decreases |names|
  {
    if names != [] {
      var init := names[..|names| - 1];
      CompilePlacesEachName(rules, init, name);
      assert names == init + [names[|names| - 1]];
      assert name in names <==> name in init || name == names[|names| - 1];
    }
  }

  /** The entry loop of getValidator for one rule. */
  method RenderRule(entries: seq<Entry>) returns (vs: seq<string>, callback: Option<Option<string>>)
    ensures vs == Rendered(entries)
    ensures callback == SometimesCallback(entries)
  {
    vs := [];
    callback := None;
    var i := 0;
    while i < |entries|
      invariant 0 <= i <= |entries|
      invariant vs == Rendered(entries[..i])
      invariant callback == SometimesCallback(entries[..i])
    {
      assert entries[..i + 1][..i] == entries[..i];
      var e := entries[i];
      if e.key != "sometimes" {
        vs := vs + [e.key + (if e.value.None? then "" else ":" + e.value.value)];
      } else {
        callback := Some(e.value);
      }
      i := i + 1;
    }
    assert entries[..i] == entries;
  }

  class Validation {
    /** The rules by name. */
    var rules: map<string, seq<Entry>>
    /** The names of the rules in the order they were created. */
    var order: seq<string>
    /** The input; null until set. */
    var input: Value

    /** The rule names are the created ones, each once. */
    ghost predicate Valid()
      reads this
    {
      && (forall name :: name in rules <==> name in order)
      && (forall i, j :: 0 <= i < j < |order| ==> order[i] != order[j])
    }

    /** The constructor keeps the input only when it is truthy. */
    constructor (input: Value)
      ensures Valid()
      ensures rules == map[] && order == []
      ensures this.input == (if Truthy(input) then input else Null)
    {
      rules := map[];
      order := [];
      this.input := Null;
      new;
      if Truthy(input) {
        this.input := input;
      }
    }

    /** setInput stores the input whatever it is. */
    method SetInput(input: Value)
      modifies this
      ensures this.input == input
      ensures rules == old(rules) && order == old(order)
    {
      this.input := input;
    }

    /**
     * rule: creates an empty rule under the name only when there is none.
     * The source returns the shared rule object, which the caller then
     * extends in place. Here a copy of the rule's entries is returned: the
     * rule class is not part of this model, so a caller cannot change the
     * stored rule through the result.
     */
    method Rule(name: string) returns (entries: seq<Entry>)
      requires Valid()
      modifies this
      ensures Valid() && input == old(input)
      ensures name in old(rules) ==> rules == old(rules) && order == old(order)
      ensures name !in old(rules) ==> rules == old(rules)[name := []] && order == old(order) + [name]
      ensures name in rules && entries == rules[name]
    {
      if name !in rules {
        rules := rules[name := []];
        order := order + [name];
      }
      entries := rules[name];
    }

    /**
     * getValidator's rule assembly, up to the call into the validator: all
     * rules in creation order, or only the given names that have one.
     */
    method GetValidator(names: Option<seq<string>>) returns (compiled: Compiled)
      ensures compiled == Compile(rules, if names.None? then order else names.value)
    {
      var todo := if names.None? then order else names.value;
      compiled := Compiled(map[], map[]);
      var i := 0;
      while i < |todo|
        invariant 0 <= i <= |todo|
        invariant compiled == Compile(rules, todo[..i])
      {
        assert todo[..i + 1][..i] == todo[..i];
        var name := todo[i];
        if name in rules {
          var vs, callback := RenderRule(rules[name]);
          if callback.None? {
            compiled := compiled.(rules := compiled.rules[name := Join(vs, "|")]);
          } else {
            compiled := compiled.(sometimes := compiled.sometimes[name := (Join(vs, "|"), callback.value)]);
          }
        }
        i := i + 1;
      }
      assert todo[..i] == todo;
    }
  }

  /** With every rule compiled, each created rule is handed to the validator exactly once. */
  lemma AllRulesCompiled(rules: map<string, seq<Entry>>, order: seq<string>, name: string)
    requires forall n :: n in rules <==> n in order
    ensures name in rules <==> name in Compile(rules, order).rules || name in Compile(rules, order).sometimes
    ensures !(name in Compile(rules, order).rules && name in Compile(rules, order).sometimes)
  {
    CompilePlacesEachName(rules, order, name);
  }
}
