/**
 * The instance manager pattern (edmunds/foundation/patterns/manager.py): a
 * lazily built, cached table from instance name to driver, built from the
 * instance configuration in declaration order. A driver comes from a factory
 * registered with extend when there is one for its driver class, and
 * otherwise from the manager's own _create_<snake_case(class name)> method.
 * extend drops the cached table.
 */
module InstanceManager {
  import opened Wrappers

  /** One entry of the instance configuration: its name and the name of its driver class. */
  datatype InstanceConfig = InstanceConfig(name: string, driverClass: string)

  /** A created driver: by a registered factory, or by one of the manager's create methods. */
  datatype Driver =
    | ByExtension(factory: string, config: InstanceConfig)
    | ByCreator(methodName: string, config: InstanceConfig)

  datatype ManagerError =
    | Redeclaring(name: string)
    | NoInstanceDeclared(name: string)
    | NoInstances
    /** The manager has no create method of that name. */
    | NoAttribute(methodName: string)
    /** A name that is not in the instance table. */
    | KeyError(name: string)

  type Table = seq<(string, Driver)>

  predicate HasKey(table: Table, name: string)
  {
    exists i :: 0 <= i < |table| && table[i].0 == name
  }

  /** The driver stored under a name (the first entry with it). */
  function Lookup(table: Table, name: string): (r: Option<Driver>)
    ensures r.Some? <==> HasKey(table, name)
    decreases |table|
  {
    if table == [] then None
    else if table[0].0 == name then Some(table[0].1)
    else
      var r := Lookup(table[1..], name);
      assert HasKey(table[1..], name) ==> HasKey(table, name) by {
        if HasKey(table[1..], name) {
          var i :| 0 <= i < |table[1..]| && table[1..][i].0 == name;
          assert table[i + 1].0 == name;
        }
      }
      r
  }

  /** The first configuration entry with the name. */
  function FirstNamed(configs: seq<InstanceConfig>, name: string): (r: Option<nat>)
    ensures r.Some? ==> r.value < |configs| && configs[r.value].name == name
    ensures r.Some? ==> forall i :: 0 <= i < r.value ==> configs[i].name != name
    ensures r.None? ==> forall i :: 0 <= i < |configs| ==> configs[i].name != name
    decreases |configs|
  {
    if configs == [] then None
    else if configs[0].name == name then Some(0)
    else
      match FirstNamed(configs[1..], name)
      case None => None
      case Some(k) => Some(k + 1)
  }

  /** Making the driver of one configuration entry. */
  function MakeDriver(config: InstanceConfig, extensions: map<string, string>, creators: set<string>,
                      snake: string -> string): Result<Driver, ManagerError>
  {
    if config.driverClass in extensions then Ok(ByExtension(extensions[config.driverClass], config))
    else
      var methodName := "_create_" + snake(config.driverClass);
      if methodName in creators then Ok(ByCreator(methodName, config)) else Err(NoAttribute(methodName))
  }

  /** _resolve: the driver of the first configuration entry with the name. */
  function ResolveSpec(configs: seq<InstanceConfig>, extensions: map<string, string>, creators: set<string>,
                       snake: string -> string, name: string): Result<Driver, ManagerError>
  {
    match FirstNamed(configs, name)
    case None => Err(NoInstanceDeclared(name))
    case Some(k) => MakeDriver(configs[k], extensions, creators, snake)
  }

  /** _load's loop over the first n configuration entries. */
  function BuildTable(configs: seq<InstanceConfig>, n: nat, extensions: map<string, string>, creators: set<string>,
                      snake: string -> string): Result<Table, ManagerError>
    requires n <= |configs|
  {
    if n == 0 then Ok([])
    else
      match BuildTable(configs, n - 1, extensions, creators, snake)
      case Err(e) => Err(e)
      case Ok(table) =>
        var name := configs[n - 1].name;
        if HasKey(table, name) then Err(Redeclaring(name))
        else
          match ResolveSpec(configs, extensions, creators, snake, name)
          case Err(e) => Err(e)
          case Ok(driver) => Ok(table + [(name, driver)])
  }

  /** Once building fails on an entry, the whole build fails with that error. */
  lemma {:induction false} BuildTableErrorSticks(configs: seq<InstanceConfig>, n: nat, m: nat, extensions: map<string, string>,
                                                 creators: set<string>, snake: string -> string)
    requires n <= m <= |configs|
    requires BuildTable(configs, n, extensions, creators, snake).Err?
    ensures BuildTable(configs, m, extensions, creators, snake) == BuildTable(configs, n, extensions, creators, snake)
    decreases m - n
  {
    if n < m {
      BuildTableErrorSticks(configs, n, m - 1, extensions, creators, snake);
    }
  }

  /**
   * A built table lists the configured names in order, each once, with each
   * name's driver made from its own configuration entry.
   */
  lemma {:induction false} BuildTableShape(configs: seq<InstanceConfig>, n: nat, extensions: map<string, string>,
                                           creators: set<string>, snake: string -> string)
    requires n <= |configs|
    requires BuildTable(configs, n, extensions, creators, snake).Ok?
    ensures var table := BuildTable(configs, n, extensions, creators, snake).value;
            && |table| == n
            && (forall i :: 0 <= i < n ==> table[i].0 == configs[i].name)
            && (forall i, j :: 0 <= i < j < n ==> configs[i].name != configs[j].name)
            && (forall i :: 0 <= i < n ==> Ok(table[i].1) == MakeDriver(configs[i], extensions, creators, snake))
  {
    if n > 0 {
      BuildTableShape(configs, n - 1, extensions, creators, snake);
      var table := BuildTable(configs, n - 1, extensions, creators, snake).value;
      var name := configs[n - 1].name;
      assert !HasKey(table, name);
      forall i | 0 <= i < n - 1
        ensures configs[i].name != name
      {
        assert table[i].0 == configs[i].name;
      }
      assert FirstNamed(configs, name) == Some(n - 1) by {
        var k := FirstNamed(configs, name);
        assert k.Some?;
        assert k.value >= n - 1;
      }
    }
  }

  /** A name declared twice makes loading fail (with the first error met on the way). */
  lemma DuplicateNameFails(configs: seq<InstanceConfig>, extensions: map<string, string>, creators: set<string>,
                           snake: string -> string, i: nat, j: nat)
    requires i < j < |configs| && configs[i].name == configs[j].name
    ensures BuildTable(configs, |configs|, extensions, creators, snake).Err?
  {
    if BuildTable(configs, |configs|, extensions, creators, snake).Ok? {
      BuildTableShape(configs, |configs|, extensions, creators, snake);
    }
  }

  /** get on a loaded (or failed) table. */
  function GetFrom(loaded: Result<Table, ManagerError>, name: Option<string>): (r: Result<Driver, ManagerError>)
    ensures loaded.Ok? && loaded.value == [] ==> r == Err(NoInstances)
    ensures loaded.Ok? && loaded.value != [] && name.None? ==> r == Ok(loaded.value[0].1)
    ensures loaded.Ok? && loaded.value != [] && name.Some?
            ==> (r.Ok? <==> HasKey(loaded.value, name.value))
  {
    match loaded
    case Err(e) => Err(e)
    case Ok(table) =>
      if |table| == 0 then Err(NoInstances)
      else
        var key := if name.None? then table[0].0 else name.value;
        match Lookup(table, key)
        case None => Err(KeyError(key))
        case Some(driver) => Ok(driver)
  }

  class Manager {
    const instancesConfig: seq<InstanceConfig>
    /** The names of the _create_* methods the concrete manager defines. */
    const creators: set<string>
    /** helpers.snake_case. */
    const snake: string -> string
    /** The cached instance table, in declaration order; None until loaded. */
    var instances: Option<Table>
    /** The factories registered with extend, by driver class. */
    var extensions: map<string, string>

    constructor (instancesConfig: seq<InstanceConfig>, creators: set<string>, snake: string -> string)
      ensures this.instancesConfig == instancesConfig && this.creators == creators && this.snake == snake
      ensures instances == None && extensions == map[]
    {
      this.instancesConfig := instancesConfig;
      this.creators := creators;
      this.snake := snake;
      instances := None;
      extensions := map[];
    }

    /** The table a load gives in the current state: the cache, or a fresh build. */
    function Loaded(): Result<Table, ManagerError>
      reads this
    {
      if instances.Some? then Ok(instances.value)
      else BuildTable(instancesConfig, |instancesConfig|, extensions, creators, snake)
    }

    /** _resolve: a loop over the configuration that stops at the first entry with the name. */
    method Resolve(name: string) returns (r: Result<Driver, ManagerError>)
      ensures r == ResolveSpec(instancesConfig, extensions, creators, snake, name)
    {
      var found: Option<nat> := None;
      var i := 0;
      while i < |instancesConfig|
        invariant 0 <= i <= |instancesConfig|
        invariant forall k :: 0 <= k < i ==> instancesConfig[k].name != name
      {
        if instancesConfig[i].name == name {
          found := Some(i);
          break;
        }
        i := i + 1;
      }
      assert found == FirstNamed(instancesConfig, name);
      if found.None? {
        return Err(NoInstanceDeclared(name));
      }
      var config := instancesConfig[found.value];
      if config.driverClass in extensions {
        r := Ok(ByExtension(extensions[config.driverClass], config));
      } else {
        var methodName := "_create_" + snake(config.driverClass);
        if methodName !in creators {
          return Err(NoAttribute(methodName));
        }
        r := Ok(ByCreator(methodName, config));
      }
    }

    /** _load: builds the table only when there is none; a failure leaves it unset. */
    method Load() returns (r: Result<(), ManagerError>)
      modifies this
      ensures extensions == old(extensions)
      ensures old(instances).Some? ==> instances == old(instances) && r.Ok?
      ensures r.Ok? <==> old(Loaded()).Ok?
      ensures instances == (if old(Loaded()).Ok? then Some(old(Loaded()).value) else None)
      ensures r.Err? ==> r.error == old(Loaded()).error
    {
      if instances.Some? {
        return Ok(());
      }
      var table: Table := [];
      var i := 0;
      while i < |instancesConfig|
        invariant 0 <= i <= |instancesConfig|
        invariant instances == None && extensions == old(extensions)
        invariant BuildTable(instancesConfig, i, extensions, creators, snake) == Ok(table)
      {
        var name := instancesConfig[i].name;
        if HasKey(table, name) {
          BuildTableErrorSticks(instancesConfig, i + 1, |instancesConfig|, extensions, creators, snake);
          return Err(Redeclaring(name));
        }
        var driver := Resolve(name);
        if driver.Err? {
          BuildTableErrorSticks(instancesConfig, i + 1, |instancesConfig|, extensions, creators, snake);
          return Err(driver.error);
        }
        table := table + [(name, driver.value)];
        i := i + 1;
      }
      instances := Some(table);
      r := Ok(());
    }

    /** get: loads, then answers with the named instance, or the first declared one when no name is given. */
    method Get(name: Option<string>) returns (r: Result<Driver, ManagerError>)
      modifies this
      ensures extensions == old(extensions)
      ensures instances == (if old(Loaded()).Ok? then Some(old(Loaded()).value) else None)
      ensures r == GetFrom(old(Loaded()), name)
    {
      var loaded := Load();
      if loaded.Err? {
        return Err(loaded.error);
      }
      var table := instances.value;
      if |table| == 0 {
        return Err(NoInstances);
      }
      var key := if name.None? then table[0].0 else name.value;
      var driver := Lookup(table, key);
      if driver.None? {
        return Err(KeyError(key));
      }
      r := Ok(driver.value);
    }

    /** all: loads, then every instance in declaration order. */
    method All() returns (r: Result<seq<Driver>, ManagerError>)
      modifies this
      ensures extensions == old(extensions)
      ensures instances == (if old(Loaded()).Ok? then Some(old(Loaded()).value) else None)
      ensures old(Loaded()).Err? ==> r == Err(old(Loaded()).error)
      ensures old(Loaded()).Ok? ==> r.Ok? && |r.value| == |old(Loaded()).value|
      ensures old(Loaded()).Ok? ==> forall i :: 0 <= i < |r.value| ==> r.value[i] == old(Loaded()).value[i].1
    {
      var loaded := Load();
      if loaded.Err? {
        return Err(loaded.error);
      }
      var table := instances.value;
      r := Ok(seq(|table|, i requires 0 <= i < |table| => table[i].1));
    }

    /** _reload: drops the cached table. */
    method Reload()
      modifies this
      ensures instances == None && extensions == old(extensions)
    {
      instances := None;
    }

    /** extend: registers the factory for the driver class, then drops the cached table. */
    method Extend(driverClass: string, factory: string)
      modifies this
      ensures extensions == old(extensions)[driverClass := factory]
      ensures instances == None
      ensures Loaded() == BuildTable(instancesConfig, |instancesConfig|, extensions, creators, snake)
    {
      extensions := extensions[driverClass := factory];
      Reload();
    }
  }

  /** A registered factory takes precedence over the create method for every entry of its driver class. */
  lemma ExtensionTakesPrecedence(config: InstanceConfig, extensions: map<string, string>, creators: set<string>,
                                 snake: string -> string)
    requires config.driverClass in extensions
    ensures MakeDriver(config, extensions, creators, snake) == Ok(ByExtension(extensions[config.driverClass], config))
  {
  }
}
