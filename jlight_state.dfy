/** The process-wide state of the jlight VM (`jlight-vm/src/runtime/state.rs`):
    the GC type, set once; the choice of collector it leads to; the nine
    prototypes and the static variables naming eight of them; and the roots
    `each_pointer` reports to a collector. */
module JlightState {
  import opened Wrappers
  import NanBox
  import WorkerThreads

  type Value = NanBox.Value

  // ---------------------------------------------------------------------------
  // The GC type

  datatype GCType = Parallel | Serial | Concurrent | Ieinium | Uninit

  const GC_ALREADY_INITIALIZED: string := "GC Already initialized"
  const NOT_IMPLEMENTED: string := "not implemented"

  /** The heap size the Ieiunium collector is built with: 2 GiB. */
  const IEIUNIUM_HEAP_SIZE: nat := 2 * 1024 * 1024 * 1024

  /** The `GC_TYPE` static. */
  class GcSetting {
    var gcType: GCType

    /** At start-up no type is chosen. */
    constructor ()
      ensures gcType == Uninit
    {
      gcType := Uninit;
    }

    /** `init_gc(ty)`: the type is set while none is chosen; a second
        choice is an error (the source panics) and keeps the first. */
    method InitGc(ty: GCType) returns (r: Result<()>)
      modifies this
      ensures old(gcType) == Uninit ==> r == Success(()) && gcType == ty
      ensures old(gcType) != Uninit ==> r == Failure(GC_ALREADY_INITIALIZED) && gcType == old(gcType)
    {
      if gcType == Uninit {
        gcType := ty;
        r := Success(());
      } else {
        r := Failure(GC_ALREADY_INITIALIZED);
      }
    }
  }

  /** The collectors `build_gc` can build. */
  datatype Collector = ParallelCollector(workers: nat) | IeiuniumCollector(heapSize: nat)

  /** `build_gc`: with no type chosen, Ieiunium is chosen first. A parallel
      collector gets the default worker count for `ncpus` processors, the
      Ieiunium one a 2 GiB heap; the other types are not implemented. */
  method BuildGc(setting: GcSetting, ncpus: nat) returns (r: Result<Collector>)
    modifies setting
    ensures setting.gcType == if old(setting.gcType) == Uninit then Ieinium else old(setting.gcType)
    ensures setting.gcType == Parallel ==>
      r == Success(ParallelCollector(WorkerThreads.Count(ncpus, 5, 8, 8)))
    ensures setting.gcType == Ieinium ==> r == Success(IeiuniumCollector(IEIUNIUM_HEAP_SIZE))
    ensures setting.gcType !in {Parallel, Ieinium} ==> r == Failure(NOT_IMPLEMENTED)
  {
    if setting.gcType == Uninit {
      var _ := setting.InitGc(Ieinium);
    }
    match setting.gcType {
      case Parallel =>
        var workers := WorkerThreads.Count(ncpus, 5, 8, 8);
        r := Success(ParallelCollector(workers));
      case Ieinium =>
        r := Success(IeiuniumCollector(IEIUNIUM_HEAP_SIZE));
      case _ =>
        r := Failure(NOT_IMPLEMENTED);
    }
  }

  /** Building a collector twice builds the same one: the default chosen
      by the first build is kept. A parallel collector always has two
      workers at least. */
  method BuildTwice(setting: GcSetting, ncpus: nat) returns (first: Result<Collector>, second: Result<Collector>)
    modifies setting
    ensures first == second
    ensures first.Success? && first.value.ParallelCollector? ==> first.value.workers >= 2
    ensures old(setting.gcType) == Uninit ==> first == Success(IeiuniumCollector(IEIUNIUM_HEAP_SIZE))
  {
    first := BuildGc(setting, ncpus);
    second := BuildGc(setting, ncpus);
    WorkerThreads.DefaultCount(ncpus);
  }

  // ---------------------------------------------------------------------------
  // Prototypes and roots

  /** The nine prototypes `init_prototypes` allocates, in allocation order.
      The allocation itself belongs to the collector, which is not part of
      this model: the values are given. */
  datatype Prototypes = Prototypes(nilProto: Value, booleanProto: Value, arrayProto: Value,
                                   objectProto: Value, functionProto: Value, numberProto: Value,
                                   moduleProto: Value, stringProto: Value, threadProto: Value)

  /** The names `init_prototypes` gives to eight of the prototypes. */
  const STATIC_NAMES: set<string> :=
    {"Object", "Boolean", "Number", "Function", "Module", "Array", "String", "Thread"}

  /** The static variables `init_prototypes` installs. */
  function Statics(p: Prototypes): (r: map<string, Value>)
    ensures "Thread" in r && r["Thread"] == p.threadProto
  {
    map["Object" := p.objectProto, "Boolean" := p.booleanProto, "Number" := p.numberProto,
        "Function" := p.functionProto, "Module" := p.moduleProto, "Array" := p.arrayProto,
        "String" := p.stringProto, "Thread" := p.threadProto]
  }

  /** The prototypes `each_pointer` reports itself, in its order: all but
      the thread prototype. */
  function Direct(p: Prototypes): seq<Value>
  {
    [p.nilProto, p.booleanProto, p.arrayProto, p.functionProto, p.objectProto, p.numberProto,
     p.moduleProto, p.stringProto]
  }

  /** `order` enumerates the keys of `statics`, each once: the iteration
      order of the hash map, which the model leaves open. */
  ghost predicate Enumerates(order: seq<string>, statics: map<string, Value>)
  {
    (forall k :: k in order <==> k in statics) &&
    (forall i, j :: 0 <= i < j < |order| ==> order[i] != order[j])
  }

  class State {
    /** The nine prototype fields. */
    var prototypes: Prototypes
    var staticVariables: map<string, Value>

    /** The fields of `State::new` before `init_prototypes`: every
        prototype is the null value and there is no static variable. */
    constructor ()
      ensures var n := NanBox.FromTag(NanBox.Null);
        prototypes == Prototypes(n, n, n, n, n, n, n, n, n)
      ensures staticVariables == map[]
    {
      var n := NanBox.FromTag(NanBox.Null);
      prototypes := Prototypes(n, n, n, n, n, n, n, n, n);
      staticVariables := map[];
    }

    /** `init_prototypes`: each prototype field takes its allocated value,
        and the static variables map the eight names to theirs. */
    method InitPrototypes(p: Prototypes)
      modifies this
      ensures prototypes == p && staticVariables == Statics(p)
    {
      staticVariables := Statics(p);
      prototypes := p;
    }

    /** `each_pointer`: eight prototypes, the thread prototype not among
        them, then the value of every static variable in the map's order. */
    method EachPointer(order: seq<string>) returns (visited: seq<Value>)
      requires Enumerates(order, staticVariables)
      ensures |visited| == 8 + |staticVariables|
      ensures visited[..8] == Direct(prototypes)
      ensures forall v :: v in visited[8..] <==> v in staticVariables.Values
    {
      visited := Direct(prototypes);
      for i := 0 to |order|
        invariant |visited| == 8 + i
        invariant forall v :: v in visited[8..] <==> exists j :: 0 <= j < i && v == staticVariables[order[j]]
        invariant visited[..8] == Direct(prototypes)
      {
        var before := visited;
        visited := visited + [staticVariables[order[i]]];
        assert visited[8..] == before[8..] + [staticVariables[order[i]]];
      }
      EnumerationSize(order, staticVariables);
    }
  }

  /** `init_prototypes` names eight prototypes, under eight distinct
      names. */
  lemma StaticNames(p: Prototypes)
    ensures Statics(p).Keys == STATIC_NAMES && |Statics(p)| == 8
  {
    assert |STATIC_NAMES| == 8;
  }

  /** An enumeration of the keys is as long as the map. */
  lemma {:induction false} EnumerationSize(order: seq<string>, statics: map<string, Value>)
    requires Enumerates(order, statics)
    ensures |order| == |statics|
    decreases |order|
  {
    if order != [] {
      var k := order[|order| - 1];
      var rest := statics - {k};
      assert Enumerates(order[..|order| - 1], rest);
      EnumerationSize(order[..|order| - 1], rest);
      assert statics.Keys == rest.Keys + {k};
    } else {
      assert statics.Keys == {};
    }
  }

  /** After `init_prototypes`, a collection reaches all nine prototypes:
      the thread prototype is not among the eight reported directly, but it
      is the value of the static variable "Thread". */
  lemma EveryPrototypeIsRoot(p: Prototypes, v: Value)
    requires v in {p.nilProto, p.booleanProto, p.arrayProto, p.objectProto, p.functionProto, p.numberProto, p.moduleProto,
                   p.stringProto, p.threadProto}
    ensures v in Direct(p) || v in Statics(p).Values
  {
    if v == p.threadProto {
      assert Statics(p)["Thread"] == v;
    }
  }
}
