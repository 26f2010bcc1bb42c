/** The content registries: id-indexed definition tables, name-keyed
    definition tables, resource name indices and the tag table. */
module Content {
  import opened Wrappers

  /** The runtime_error messages the registries throw. */
  datatype ContentError =
    | InvalidId(id: nat)              // "invalid content unit id: <id>"
    | MissingUnit(name: string)       // "missing content unit <name>"
    | ResourceMissing(name: string)   // "resource does not exists: <name>"
    | IndexOutOfRange(index: nat)     // std::vector::at

  /** size_t's largest value, ResourceIndices::MISSING. */
  const MISSING: nat := 0xFFFF_FFFF_FFFF_FFFF

  /** ContentUnitIndices: definitions indexed by their numeric id. */
  datatype ContentUnitIndices<T> = ContentUnitIndices(defs: seq<T>) {

    function Count(): nat { |defs| }

    /** The definition with that id, or null when the id is out of range. */
    function Get(id: nat): (r: Option<T>)
      ensures r.None? <==> id >= Count()
      ensures r.Some? ==> r.value == defs[id]
    {
      if id >= |defs| then None else Some(defs[id])
    }

    /** Like Get, but an out-of-range id throws. */
    function Require(id: nat): (r: Result<T, ContentError>)
      ensures r.Failure? <==> Get(id).None?
      ensures r.Failure? ==> r.error == InvalidId(id)
      ensures r.Success? ==> Get(id) == Some(r.value)
    {
      if id >= |defs| then Failure(InvalidId(id)) else Success(defs[id])
    }
  }

  /** ContentUnitDefs: definitions keyed by their string id. */
  datatype ContentUnitDefs<T> = ContentUnitDefs(defs: map<string, T>) {

    function Find(id: string): (r: Option<T>)
      ensures r.None? <==> id !in defs
      ensures r.Some? ==> id in defs && r.value == defs[id]
    {
      if id in defs then Some(defs[id]) else None
    }

    function Require(id: string): (r: Result<T, ContentError>)
      ensures r.Failure? <==> Find(id).None?
      ensures r.Failure? ==> r.error == MissingUnit(id)
      ensures r.Success? ==> Find(id) == Some(r.value)
    {
      if id in defs then Success(defs[id]) else Failure(MissingUnit(id))
    }
  }

  /** The part of Content this model keeps: its tag table. */
  datatype Content = Content(tags: map<string, int>) {

    /** The tag's index, or -1 for a tag that is not registered. */
    function GetTagIndex(tag: string): (r: int)
      ensures tag !in tags ==> r == -1
      ensures tag in tags ==> r == tags[tag]
    {
      if tag in tags then tags[tag] else -1
    }
  }

  /** ResourceIndices: resource names in registration order, a name (or
      alias) to index map, and one saved data value per resource. */
  class ResourceIndices<D> {
    var names: seq<string>
    var indices: map<string, nat>
    var savedData: seq<D>

    /** Every stored index names a registered resource, there is one saved
        value per name, and no index can be mistaken for MISSING. */
    ghost predicate Valid()
      reads this
    {
      && |savedData| == |names|
      && |names| <= MISSING
      && forall k :: k in indices ==> indices[k] < |names|
    }

    constructor ()
      ensures Valid() && names == [] && indices == map[] && savedData == []
    {
      names, indices, savedData := [], map[], [];
    }

    /** Registers `name` with the next index; a name registered before is
        re-pointed at the new entry. */
    method Add(name: string, data: D)
      requires Valid() && |names| < MISSING
      modifies this
      ensures Valid()
      ensures names == old(names) + [name] && savedData == old(savedData) + [data]
      ensures indices == old(indices)[name := old(|names|)]
      ensures IndexOf(name) == old(|names|) && GetName(IndexOf(name)) == Success(name)
    {
      indices := indices[name := |names|];
      names := names + [name];
      savedData := savedData + [data];
    }

    /** Makes `alias` resolve to the index of `name`; throws when `name` is
        not registered. */
    method AddAlias(name: string, alias: string) returns (outcome: Outcome<ContentError>)
      requires Valid()
      modifies this
      ensures Valid() && names == old(names) && savedData == old(savedData)
      ensures outcome.Fail? <==> name !in old(indices)
      ensures outcome.Fail? ==> outcome.error == ResourceMissing(name) && indices == old(indices)
      ensures outcome.Pass? ==> indices == old(indices)[alias := old(indices)[name]]
      ensures outcome.Pass? ==> IndexOf(alias) == IndexOf(name) == old(IndexOf(name))
    {
      var index := IndexOf(name);
      if index == MISSING {
        return Fail(ResourceMissing(name));
      }
      indices := indices[alias := index];
      outcome := Pass;
    }

    /** The index registered for `name` (or an alias), MISSING otherwise. */
    function IndexOf(name: string): (i: nat)
      reads this
      requires Valid()
      ensures i == MISSING <==> name !in indices
      ensures i != MISSING ==> i == indices[name] && i < Size()
    {
      if name in indices then indices[name] else MISSING
    }

    /** names.at(index): throws out_of_range past the end. */
    function GetName(index: nat): (r: Result<string, ContentError>)
      reads this
      ensures r.Success? <==> index < |names|
      ensures r.Success? ==> r.value == names[index]
      ensures r.Failure? ==> r.error == IndexOutOfRange(index)
    {
      if index < |names| then Success(names[index]) else Failure(IndexOutOfRange(index))
    }

    function GetSavedData(index: nat): (r: Result<D, ContentError>)
      reads this
      ensures r.Success? <==> index < |savedData|
      ensures r.Success? ==> r.value == savedData[index]
      ensures r.Failure? ==> r.error == IndexOutOfRange(index)
    {
      if index < |savedData| then Success(savedData[index]) else Failure(IndexOutOfRange(index))
    }

    /** Replaces the saved value of an entry; throws out_of_range past the end. */
    method SaveData(index: nat, data: D) returns (outcome: Outcome<ContentError>)
      requires Valid()
      modifies this
      ensures Valid() && names == old(names) && indices == old(indices)
      ensures outcome.Pass? <==> index < |old(savedData)|
      ensures outcome.Pass? ==> savedData == old(savedData)[index := data]
      ensures outcome.Fail? ==> savedData == old(savedData)
    {
      if index >= |savedData| {
        return Fail(IndexOutOfRange(index));
      }
      savedData := savedData[index := data];
      outcome := Pass;
    }

    function Size(): (n: nat)
      reads this
      requires Valid()
      ensures n == |names| == |savedData|
    {
      |names|
    }
  }

  /** Two registrations and an alias: the alias shares the first index and
      resolves to the first name; an unknown name stays MISSING and cannot
      be aliased. */
  method AliasScenario() returns (first: nat, aliased: nat, unknown: nat, aliasOfUnknown: Outcome<ContentError>)
    ensures first == aliased == 0 && unknown == MISSING
    ensures aliasOfUnknown == Fail(ResourceMissing("base:stone"))
  {
    var r := new ResourceIndices<int>();
    r.Add("base:dirt", 1);
    r.Add("base:grass", 2);
    var o := r.AddAlias("base:dirt", "old:dirt");
    first := r.IndexOf("base:dirt");
    aliased := r.IndexOf("old:dirt");
    unknown := r.IndexOf("base:stone");
    aliasOfUnknown := r.AddAlias("base:stone", "old:stone");
  }
}
