/**
 * Enumerations as the parser leaves them: each item has a value, or refers to one of its own or another enumeration.
 */
module Enumerations {
  import opened Wrappers

  datatype Kind = Empty | Assigned(number: int) | LocalRef(local: string) | RemoteRef(space: string, remote: string)
  datatype Item = Item(name: string, kind: Kind)
  datatype Enumeration = Enumeration(values: seq<Item>, references: set<string>)
  datatype Failure = UnrecognizedLocal | Loop | UnknownReference | MissingLocal | MissingEnumeration | MissingValue

  function Names(values: seq<Item>): set<string> {
    set v | v in values :: v.name
  }

  function Spaces(values: seq<Item>): set<string> {
    set v | v in values && v.kind.RemoteRef? :: v.kind.space
  }

  /** What the parser guarantees: a local reference names an earlier item, and the references are those of the items. */
  ghost predicate WellParsed(e: Enumeration) {
    && e.references == Spaces(e.values)
    && forall j :: 0 <= j < |e.values| && e.values[j].kind.LocalRef? ==> e.values[j].kind.local in Names(e.values[..j])
  }

  /** What one more item adds. */
  lemma AppendIsWellParsed(values: seq<Item>, item: Item, references: set<string>)
    ensures Names(values + [item]) == Names(values) + {item.name}
    ensures WellParsed(Enumeration(values + [item], references)) <==>
            && references == Spaces(values) + (if item.kind.RemoteRef? then {item.kind.space} else {})
            && WellParsed(Enumeration(values, Spaces(values)))
            && (item.kind.LocalRef? ==> item.kind.local in Names(values))
  {
    var longer := values + [item];
    assert forall v :: v in longer <==> v in values || v == item;
    assert longer[..|values|] == values && longer[|values|] == item;
    assert forall j :: 0 <= j < |values| ==> longer[..j] == values[..j] && longer[j] == values[j];
  }

  /** The part of the parser's state that belongs to one enumeration. */
  class State {
    var values: seq<Item>
    var valuesMap: set<string>
    var references: set<string>
    var workingItem: Option<Item>

    /** The items read so far, with the one in progress. */
    ghost function Read(): seq<Item>
      reads this
    {
      if workingItem.Some? then values + [workingItem.value] else values
    }

    ghost predicate Valid()
      reads this
    {
      valuesMap == Names(values) && WellParsed(Enumeration(Read(), references))
    }

    constructor ()
      ensures Valid() && Read() == []
    {
      values, valuesMap, references, workingItem := [], {}, {}, None;
    }

    method Push()
      requires Valid()
      modifies this
      ensures Valid() && workingItem.None? && Read() == old(Read())
    {
      if workingItem.Some? {
        AppendIsWellParsed(values, workingItem.value, references);
        valuesMap := valuesMap + {workingItem.value.name};
        values := values + [workingItem.value];
        workingItem := None;
      }
    }

    method ItemName(name: string)
      requires Valid()
      modifies this
      ensures Valid() && Read() == old(Read()) + [Item(name, Empty)]
      ensures workingItem.Some?
    {
      Push();
      workingItem := Some(Item(name, Empty));
      AppendIsWellParsed(values, workingItem.value, references);
    }

    method Number(n: int)
      requires Valid() && workingItem.Some? && workingItem.value.kind.Empty?
      modifies this
      ensures Valid() && values == old(values) && workingItem == Some(Item(old(workingItem).value.name, Assigned(n)))
    {
      Replace(Assigned(n));
    }

    /** The item in progress gets its kind: a reference only if its enumeration is recorded. */
    ghost predicate Allows(kind: Kind)
      reads this
    {
      match kind
      case Empty | Assigned(_) => true
      case LocalRef(name) => name in valuesMap
      case RemoteRef(space, _) => true
    }

    method Replace(kind: Kind)
      requires Valid() && workingItem.Some? && workingItem.value.kind.Empty? && Allows(kind)
      modifies this
      ensures Valid() && values == old(values) && workingItem == Some(Item(old(workingItem).value.name, kind))
    {
      AppendIsWellParsed(values, workingItem.value, references);
      if kind.RemoteRef? {
        references := references + {kind.space};
      }
      workingItem := Some(workingItem.value.(kind := kind));
      AppendIsWellParsed(values, workingItem.value, references);
    }

    /** The parser's action for a reference: without a namespace it must name an item already pushed. */
    method Reference(space: string, name: string) returns (r: Result<bool, Failure>)
      requires Valid() && workingItem.Some? && workingItem.value.kind.Empty?
      modifies this
      ensures r.Err? <==> space == "" && name !in old(Names(values))
      ensures r.Ok? ==> Valid() && values == old(values)
      ensures r.Ok? ==> workingItem == Some(Item(old(workingItem).value.name,
                                                 if space == "" then LocalRef(name) else RemoteRef(space, name)))
    {
      if space == "" {
        if name in valuesMap {
          Replace(LocalRef(name));
        } else {
          return Err(UnrecognizedLocal);
        }
      } else {
        Replace(RemoteRef(space, name));
      }
      r := Ok(true);
    }

    method Finish() returns (e: Enumeration)
      requires Valid()
      modifies this
      ensures WellParsed(e) && e.values == old(Read())
    {
      Push();
      e := Enumeration(values, references);
    }
  }
}

/** The depth-first topological sort of the enumerations by their references. */
module EnumSort {
  import opened Wrappers
  import opened Enumerations

  type Enums = map<string, Enumeration>

  ghost predicate Known(enums: Enums) {
    forall n, r :: n in enums && r in enums[n].references ==> r in enums
  }

  /** Each name refers to the next one. */
  ghost predicate Chain(enums: Enums, path: seq<string>) {
    && (forall i :: 0 <= i < |path| ==> path[i] in enums)
    && forall i :: 0 <= i < |path| - 1 ==> path[i + 1] in enums[path[i]].references
  }

  ghost predicate Cycle(enums: Enums, c: seq<string>) {
    |c| >= 2 && Chain(enums, c) && c[0] == c[|c| - 1]
  }

  ghost predicate Cyclic(enums: Enums) {
    exists c :: Cycle(enums, c)
  }

  /** No name twice, and after each name's references only. */
  ghost predicate Ordered(enums: Enums, order: seq<string>) {
    && (forall i, j :: 0 <= i < j < |order| ==> order[i] != order[j])
    && (forall i :: 0 <= i < |order| ==> order[i] in enums && enums[order[i]].references <= (set n | n in order[..i]))
  }

  ghost predicate Topological(enums: Enums, order: seq<string>) {
    Ordered(enums, order) && forall n :: n in enums ==> n in order
  }

  /** The names in process form a chain, and those processed are in order. */
  ghost predicate Marked(enums: Enums, tmp: map<string, nat>, path: seq<string>, result: seq<string>) {
    && tmp.Keys == enums.Keys
    && (forall n :: n in tmp ==> tmp[n] == if n in path then 1 else if n in result then 2 else 0)
    && (forall n :: n in path ==> n !in result)
    && Chain(enums, path) && Ordered(enums, result)
  }

  ghost function Untouched(tmp: map<string, nat>): set<string> {
    set n | n in tmp && tmp[n] == 0
  }

  lemma MarkOf(enums: Enums, tmp: map<string, nat>, path: seq<string>, result: seq<string>, name: string)
    requires Marked(enums, tmp, path, result) && name in enums
    ensures name in tmp && tmp[name] <= 2
    ensures (tmp[name] == 1 <==> name in path) && (tmp[name] == 2 ==> name in result)
    ensures path != [] ==> path[|path| - 1] in enums
    ensures Chain(enums, path)
  {
  }

  lemma Enter(enums: Enums, tmp: map<string, nat>, path: seq<string>, result: seq<string>, name: string)
    requires Marked(enums, tmp, path, result) && name in enums && tmp[name] == 0
    requires path != [] ==> name in enums[path[|path| - 1]].references
    ensures Marked(enums, tmp[name := 1], path + [name], result)
    ensures Untouched(tmp[name := 1]) == Untouched(tmp) - {name}
  {
  }

  lemma Leave(enums: Enums, tmp: map<string, nat>, path: seq<string>, result: seq<string>, name: string)
    requires name in enums && name !in path && Marked(enums, tmp, path + [name], result)
    requires forall r :: r in enums[name].references ==> r in result
    ensures Marked(enums, tmp[name := 2], path, result + [name])
    ensures Untouched(tmp[name := 2]) <= Untouched(tmp)
  {
    hide Chain, Ordered;
    var longer := path + [name];
    assert longer[|path|] == name;
    ChainPrefix(enums, path, name);
    AppendOrdered(enums, result, name);
    LeaveMarks(tmp, path, result, name);
  }

  lemma LeaveMarks(tmp: map<string, nat>, path: seq<string>, result: seq<string>, name: string)
    requires forall n :: n in tmp ==> tmp[n] == if n in path + [name] then 1 else if n in result then 2 else 0
    requires forall n :: n in path + [name] ==> n !in result
    requires name in tmp && name !in path
    ensures forall n :: n in tmp ==> tmp[name := 2][n] == if n in path then 1 else if n in result + [name] then 2 else 0
    ensures forall n :: n in path ==> n !in result + [name]
    ensures Untouched(tmp[name := 2]) <= Untouched(tmp)
  {
  }

  lemma ChainPrefix(enums: Enums, path: seq<string>, name: string)
    requires Chain(enums, path + [name])
    ensures Chain(enums, path)
  {
    assert forall i :: 0 <= i < |path| ==> path[i] == (path + [name])[i];
  }

  lemma AppendOrdered(enums: Enums, order: seq<string>, name: string)
    requires Ordered(enums, order) && name in enums && name !in order
    requires forall r :: r in enums[name].references ==> r in order
    ensures Ordered(enums, order + [name])
  {
    var longer := order + [name];
    assert longer[..|order|] == order;
    assert forall i :: 0 <= i < |order| ==> longer[..i] == order[..i];
  }

  lemma GreyIsCycle(enums: Enums, path: seq<string>, name: string)
    requires Chain(enums, path) && name in path && name in enums[path[|path| - 1]].references
    ensures Cyclic(enums)
  {
    var i :| 0 <= i < |path| && path[i] == name;
    assert Cycle(enums, path[i..] + [name]);
  }

  lemma UnknownIsNotKnown(enums: Enums, name: string, ref: string)
    requires name in enums && ref in enums[name].references && ref !in enums
    ensures !Known(enums)
  {
  }

  class Sorter {
    const enums: Enums
    var tmp: map<string, nat>
    var result: seq<string>

    constructor (enumerations: Enums)
      ensures enums == enumerations
    {
      enums := enumerations;
      tmp, result := map[], [];
    }

    method Visit(name: string, ghost path: seq<string>) returns (r: Result<bool, Failure>)
      requires Marked(enums, tmp, path, result) && name in enums
      requires path != [] ==> name in enums[path[|path| - 1]].references
      modifies this
      ensures r.Ok? ==> Marked(enums, tmp, path, result) && name in result && old(result) <= result
      ensures r.Ok? ==> Untouched(tmp) <= Untouched(old(tmp))
      ensures r == Err(Loop) ==> Cyclic(enums)
      ensures r == Err(UnknownReference) ==> !Known(enums)
      ensures r.Err? ==> r.error.Loop? || r.error.UnknownReference?
      decreases Untouched(tmp)
    {
      hide Marked, Chain, Cyclic, Known;
      MarkOf(enums, tmp, path, result, name);
      if tmp[name] == 2 {
        return Ok(true);
      }
      if tmp[name] == 1 {
        GreyIsCycle(enums, path, name);
        return Err(Loop);
      }
      Enter(enums, tmp, path, result, name);
      tmp := tmp[name := 1];
      ghost var longer, before := path + [name], Untouched(tmp);
      var rest := enums[name].references;
      while rest != {}
        invariant Marked(enums, tmp, longer, result) && rest <= enums[name].references
        invariant old(result) <= result && Untouched(tmp) <= before
        invariant forall x :: x in enums[name].references - rest ==> x in result
        decreases rest
      {
        var ref :| ref in rest;
        if ref !in enums {
          UnknownIsNotKnown(enums, name, ref);
          return Err(UnknownReference);
        }
        ghost var sofar := result;
        var visited := Visit(ref, longer);
        if visited.Err? {
          return visited;
        }
        assert forall x :: x in sofar ==> x in result;
        rest := rest - {ref};
      }
      Leave(enums, tmp, path, result, name);
      tmp := tmp[name := 2];
      result := result + [name];
      r := Ok(true);
    }

    /** The list in which everything comes after what it refers to; or the failure that prevents it. */
    method Sort() returns (r: Result<seq<string>, Failure>)
      modifies this
      ensures r.Ok? ==> Topological(enums, r.value)
      ensures r.Ok? <==> Known(enums) && !Cyclic(enums)
      ensures r == Err(Loop) ==> Cyclic(enums)
      ensures r == Err(UnknownReference) ==> !Known(enums)
      ensures r.Err? ==> r.error.Loop? || r.error.UnknownReference?
    {
      tmp := map n | n in enums :: 0;
      result := [];
      var working := enums.Keys;
      while working != {}
        invariant Marked(enums, tmp, [], result) && working <= enums.Keys
        invariant forall n :: n in enums && n !in working ==> n in result
        decreases working
      {
        var m :| m in working;
        var visited := Visit(m, []);
        if visited.Err? {
          return Err(visited.error);
        }
        working := working - {m};
      }
      TopologicalIsKnown(enums, result);
      OrderedIsAcyclic(enums, result);
      r := Ok(result);
    }
  }

  lemma TopologicalIsKnown(enums: Enums, order: seq<string>)
    requires Topological(enums, order)
    ensures Known(enums)
  {
  }

  /** Along a chain the places in the order fall. */
  lemma {:induction false} PlacesFall(enums: Enums, order: seq<string>, c: seq<string>, i: nat, place: nat)
    returns (p: nat)
    requires Ordered(enums, order) && Chain(enums, c) && i < |c| && place < |order| && order[place] == c[0]
    ensures p < |order| && order[p] == c[i] && (i > 0 ==> p < place)
  {
    if i == 0 {
      return place;
    }
    var q := PlacesFall(enums, order, c, i - 1, place);
    assert c[i] in order[..q];
    p :| 0 <= p < q && order[p] == c[i];
  }

  /** What has a topological order has no cycle. */
  lemma OrderedIsAcyclic(enums: Enums, order: seq<string>)
    requires Topological(enums, order)
    ensures !Cyclic(enums)
  {
    if c :| Cycle(enums, c) {
      var place :| 0 <= place < |order| && order[place] == c[0];
      var p := PlacesFall(enums, order, c, |c| - 1, place);
      assert false;
    }
  }
}

/** Giving every item its value, one enumeration after the other. */
module EnumResolve {
  import opened Wrappers
  import opened Enumerations
  import opened EnumSort

  datatype EnumItem = EnumItem(name: string, value: int)
  type EnumMap = map<string, seq<EnumItem>>

  /** std::find_if by name: the value of the first item with this name. */
  function Find(items: seq<EnumItem>, name: string): Option<int> {
    if items == [] then None else if items[0].name == name then Some(items[0].value) else Find(items[1..], name)
  }

  function FindFrom(items: seq<EnumItem>, name: string, failure: Failure): Result<int, Failure> {
    match Find(items, name)
    case Some(value) => Ok(value)
    case None => Err(failure)
  }

  /** The value of the next item after these. */
  function NextIndex(items: seq<EnumItem>): int {
    if items == [] then 0 else items[|items| - 1].value + 1
  }

  /** The value that an item has after the items before it, in a map that holds the other enumerations. */
  function ValueOf(item: Item, items: seq<EnumItem>, m: EnumMap): Result<int, Failure> {
    match item.kind
    case Empty => Ok(NextIndex(items))
    case Assigned(number) => Ok(number)
    case LocalRef(local) => FindFrom(items, local, MissingLocal)
    case RemoteRef(space, remote) =>
      if space in m then FindFrom(m[space], remote, MissingValue) else Err(MissingEnumeration)
  }

  /** The items of an enumeration agree with its definition, in a map that holds the other enumerations. */
  ghost predicate Solves(e: Enumeration, items: seq<EnumItem>, n: nat, m: EnumMap)
    requires n <= |e.values|
  {
    |items| == n && forall j :: 0 <= j < n ==>
      items[j].name == e.values[j].name && ValueOf(e.values[j], items[..j], m) == Ok(items[j].value)
  }

  /** A map that agrees with all definitions at once. */
  ghost predicate Solution(enums: Enums, m: EnumMap) {
    m.Keys == enums.Keys && forall n :: n in enums ==> Solves(enums[n], m[n], |enums[n].values|, m)
  }

  /** The first failure among the items of an enumeration, after those already resolved. */
  ghost predicate Fails(e: Enumeration, items: seq<EnumItem>, m: EnumMap, failure: Failure) {
    && |items| < |e.values| && Solves(e, items, |items|, m)
    && ValueOf(e.values[|items|], items, m) == Err(failure)
  }

  method FindIf(items: seq<EnumItem>, name: string) returns (found: Option<int>)
    ensures found == Find(items, name)
  {
    var i := 0;
    while i < |items|
      invariant 0 <= i <= |items| && Find(items, name) == Find(items[i..], name)
    {
      if items[i].name == name {
        return Some(items[i].value);
      }
      i := i + 1;
    }
    found := None;
  }

  lemma NothingSolves(e: Enumeration, m: EnumMap)
    ensures Solves(e, [], 0, m)
  {
  }

  lemma SolvesLength(e: Enumeration, items: seq<EnumItem>, n: nat, m: EnumMap)
    requires n <= |e.values| && Solves(e, items, n, m)
    ensures |items| == n
  {
  }

  lemma OneMoreItem(e: Enumeration, items: seq<EnumItem>, value: int, m: EnumMap)
    requires |items| < |e.values| && Solves(e, items, |items|, m)
    requires ValueOf(e.values[|items|], items, m) == Ok(value)
    ensures Solves(e, items + [EnumItem(e.values[|items|].name, value)], |items| + 1, m)
  {
    hide ValueOf;
    var longer := items + [EnumItem(e.values[|items|].name, value)];
    assert forall j :: 0 <= j < |items| ==> longer[..j] == items[..j] && longer[j] == items[j];
    assert longer[..|items|] == items;
  }

  /** The inner loop: the items of one enumeration. */
  method ResolveItems(e: Enumeration, result: EnumMap)
    returns (r: Result<seq<EnumItem>, Failure>, ghost done: seq<EnumItem>)
    ensures r.Ok? ==> Solves(e, r.value, |e.values|, result)
    ensures r.Err? ==> Fails(e, done, result, r.error)
  {
    hide Solves, Find;
    var items: seq<EnumItem> := [];
    var nextIndex := 0;
    NothingSolves(e, result);
    for i := 0 to |e.values|
      invariant Solves(e, items, i, result) && nextIndex == NextIndex(items)
    {
      done := items;
      SolvesLength(e, items, i, result);
      var val := e.values[i];
      var value := nextIndex;
      match val.kind {
        case Empty =>
        case Assigned(number) =>
          value := number;
        case LocalRef(local) =>
          var it := FindIf(items, local);
          if it.None? {
            return Err(MissingLocal), done;
          }
          value := it.value;
        case RemoteRef(space, remote) =>
          if space !in result {
            return Err(MissingEnumeration), done;
          }
          var it2 := FindIf(result[space], remote);
          if it2.None? {
            return Err(MissingValue), done;
          }
          value := it2.value;
      }
      nextIndex := value + 1;
      items := items + [EnumItem(val.name, value)];
      OneMoreItem(e, done, value, result);
    }
    return Ok(items), items;
  }

  // ----- the definitions as equations -----

  /** The first of these items with a name has this value. */
  ghost predicate FirstNamed(items: seq<EnumItem>, name: string, value: int) {
    exists i :: 0 <= i < |items| && items[i] == EnumItem(name, value) && forall k :: 0 <= k < i ==>
        items[k].name != name
  }

  /**
   * Item j has the value that its definition says: the one after that of the item before, 0 for the first item, the
   * assigned one, or that of the first item with the name it refers to, before it or in the other enumeration.
   */
  ghost predicate HasValue(item: Item, items: seq<EnumItem>, j: nat, m: EnumMap)
    requires j < |items|
  {
    && items[j].name == item.name
    && match item.kind
       case Empty => items[j].value == (if j > 0 then items[j - 1].value + 1 else 0)
       case Assigned(number) => items[j].value == number
       case LocalRef(local) => FirstNamed(items[..j], local, items[j].value)
       case RemoteRef(space, remote) => space in m && FirstNamed(m[space], remote, items[j].value)
  }

  /** Every enumeration has exactly its items, and each of them its value. */
  ghost predicate Equations(enums: Enums, m: EnumMap) {
    && m.Keys == enums.Keys
    && forall n :: n in enums ==>
         |m[n]| == |enums[n].values| && forall j :: 0 <= j < |m[n]| ==> HasValue(enums[n].values[j], m[n], j, m)
  }

  lemma {:induction false} FindIsFirstNamed(items: seq<EnumItem>, name: string, value: int)
    ensures Find(items, name) == Some(value) <==> FirstNamed(items, name, value)
  {
    if items != [] {
      var rest := items[1..];
      FindIsFirstNamed(rest, name, value);
      if items[0].name != name {
        if FirstNamed(rest, name, value) {
          var i :| 0 <= i < |rest| && rest[i] == EnumItem(name, value) && forall k :: 0 <= k < i ==>
              rest[k].name != name;
          assert items[i + 1] == EnumItem(name, value);
          assert forall k :: 0 <= k < i + 1 ==> items[k].name != name;
        }
        if FirstNamed(items, name, value) {
          var i :| 0 <= i < |items| && items[i] == EnumItem(name, value) && forall k :: 0 <= k < i ==>
              items[k].name != name;
          assert rest[i - 1] == EnumItem(name, value);
        }
      }
    }
  }

  lemma ValueOfIff(item: Item, items: seq<EnumItem>, j: nat, m: EnumMap)
    requires j < |items|
    ensures HasValue(item, items, j, m) <==>
              items[j].name == item.name && ValueOf(item, items[..j], m) == Ok(items[j].value)
  {
    hide Find, FirstNamed;
    match item.kind {
      case Empty =>
      case Assigned(_) =>
      case LocalRef(local) => FindIsFirstNamed(items[..j], local, items[j].value);
      case RemoteRef(space, remote) =>
        if space in m { FindIsFirstNamed(m[space], remote, items[j].value); }
    }
  }

  /** What a solution is: nothing but these equations. */
  lemma SolutionIsEquations(enums: Enums, m: EnumMap)
    ensures Solution(enums, m) <==> Equations(enums, m)
  {
    hide HasValue, ValueOf;
    forall n, j: nat | n in enums && n in m && j < |m[n]| && j < |enums[n].values|
      ensures HasValue(enums[n].values[j], m[n], j, m) <==>
                m[n][j].name == enums[n].values[j].name
                    && ValueOf(enums[n].values[j], m[n][..j], m) == Ok(m[n][j].value)
    {
      ValueOfIff(enums[n].values[j], m[n], j, m);
    }
  }

  /** The two maps give the same items to every enumeration that e refers to. */
  ghost predicate Agree(e: Enumeration, m: EnumMap, m': EnumMap) {
    forall r :: r in Spaces(e.values) ==> (r in m <==> r in m') && (r in m ==> m[r] == m'[r])
  }

  lemma SpaceIsReference(e: Enumeration, j: nat)
    requires j < |e.values| && e.values[j].kind.RemoteRef?
    ensures e.values[j].kind.space in Spaces(e.values)
  {
  }

  lemma SolvesElsewhere(e: Enumeration, items: seq<EnumItem>, n: nat, m: EnumMap, m': EnumMap)
    requires n <= |e.values| && Solves(e, items, n, m) && Agree(e, m, m')
    ensures Solves(e, items, n, m')
  {
  }

  /** The definition leaves no choice. */
  lemma {:induction false} SameItems(e: Enumeration, a: seq<EnumItem>, b: seq<EnumItem>, n: nat, m: EnumMap)
    requires n <= |b| <= |e.values| && Solves(e, a, n, m) && Solves(e, b, |b|, m)
    ensures a == b[..n]
  {
    hide ValueOf;
    if n > 0 {
      assert Solves(e, a[..n - 1], n - 1, m) by {
        assert forall j :: 0 <= j < n - 1 ==> a[..n - 1][..j] == a[..j];
      }
      SameItems(e, a[..n - 1], b, n - 1, m);
      assert a[n - 1] == b[n - 1];
      assert a == a[..n - 1] + [a[n - 1]];
      assert b[..n] == b[..n - 1] + [b[n - 1]];
    }
  }

  ghost function Places(order: seq<string>): set<string> {
    set n | n in order
  }

  /** A map that agrees with the definitions of the first enumerations of the order, and holds no others. */
  ghost predicate Partial(enums: Enums, order: seq<string>, m: EnumMap)
    requires Ordered(enums, order)
  {
    m.Keys == Places(order) && forall n :: n in m ==> Solves(enums[n], m[n], |enums[n].values|, m)
  }

  ghost predicate AllWellParsed(enums: Enums) {
    forall n :: n in enums ==> WellParsed(enums[n])
  }

  /** Every solution extends the map resolved so far. */
  lemma {:induction false} SolutionExtends(enums: Enums, order: seq<string>, k: nat, m: EnumMap, m': EnumMap)
    requires AllWellParsed(enums) && Ordered(enums, order) && Partial(enums, order, m) && Solution(enums, m')
    requires k <= |order|
    ensures forall i :: 0 <= i < k ==> m[order[i]] == m'[order[i]]
  {
    if k > 0 {
      SolutionExtends(enums, order, k - 1, m, m');
      var n := order[k - 1];
      var e := enums[n];
      assert n in Places(order) && WellParsed(e);
      forall r | r in Spaces(e.values) ensures r in m && r in m' && m[r] == m'[r] {
        assert r in order[..k - 1];
        assert r in Places(order);
      }
      SolvesElsewhere(e, m[n], |e.values|, m, m');
      SameItems(e, m[n], m'[n], |e.values|, m');
    }
  }

  lemma SolutionIsUnique(enums: Enums, order: seq<string>, m: EnumMap, m': EnumMap)
    requires AllWellParsed(enums) && Topological(enums, order) && Solution(enums, m) && Solution(enums, m')
    ensures m == m'
  {
    assert Places(order) == enums.Keys;
    SolutionExtends(enums, order, |order|, m, m');
    forall n | n in enums ensures m[n] == m'[n] {
      var i :| 0 <= i < |order| && order[i] == n;
    }
  }

  /** After a sort and the parser's check, only the value of another enumeration can be missing. */
  lemma OnlyValuesAreMissing(e: Enumeration, items: seq<EnumItem>, m: EnumMap, failure: Failure)
    requires WellParsed(e) && e.references <= m.Keys && Fails(e, items, m, failure)
    ensures failure == MissingValue
  {
    var j := |items|;
    match e.values[j].kind
    case Empty | Assigned(_) =>
    case LocalRef(local) =>
      assert local in Names(e.values[..j]);
      var v :| v in e.values[..j] && v.name == local;
      var i :| 0 <= i < j && e.values[i] == v;
      FindSucceeds(items, local, i);
    case RemoteRef(_, _) =>
      SpaceIsReference(e, j);
  }

  lemma {:induction false} FindSucceeds(items: seq<EnumItem>, name: string, i: nat)
    requires i < |items| && items[i].name == name
    ensures Find(items, name).Some?
  {
    if i > 0 {
      FindSucceeds(items[1..], name, i - 1);
    }
  }

  /** A failure means that the definitions have no solution. */
  lemma FailureMeansNoSolution(enums: Enums, order: seq<string>, k: nat, m: EnumMap, items: seq<EnumItem>,
                                failure: Failure, m': EnumMap)
    requires AllWellParsed(enums) && Topological(enums, order) && k < |order| && Ordered(enums, order[..k])
    requires Partial(enums, order[..k], m) && Fails(enums[order[k]], items, m, failure)
    ensures !Solution(enums, m')
  {
    if Solution(enums, m') {
      var n := order[k];
      var e := enums[n];
      var j := |items|;
      SolutionExtends(enums, order[..k], k, m, m');
      assert WellParsed(e);
      forall r | r in Spaces(e.values) ensures r in m && r in m' && m[r] == m'[r] {
        assert r in order[..k];
        assert r in Places(order[..k]);
      }
      SolvesElsewhere(e, items, j, m, m');
      SameItems(e, items, m'[n], j, m');
      assert ValueOf(e.values[j], m'[n][..j], m') == Ok(m'[n][j].value);
      if e.values[j].kind.RemoteRef? { SpaceIsReference(e, j); }
      assert false;
    }
  }

  lemma OneMoreEnumeration(enums: Enums, order: seq<string>, k: nat, m: EnumMap, items: seq<EnumItem>)
    requires AllWellParsed(enums) && Topological(enums, order) && k < |order| && Ordered(enums, order[..k])
    requires Partial(enums, order[..k], m) && Solves(enums[order[k]], items, |enums[order[k]].values|, m)
    ensures Ordered(enums, order[..k + 1]) && Partial(enums, order[..k + 1], m[order[k] := items])
  {
    var n, larger := order[k], m[order[k] := items];
    OrderedPrefix(enums, order, k + 1);
    assert order[..k + 1] == order[..k] + [n];
    assert Places(order[..k + 1]) == Places(order[..k]) + {n};
    forall x | x in larger ensures Solves(enums[x], larger[x], |enums[x].values|, larger) {
      ReferencesComeBefore(enums, order, k, x);
      assert WellParsed(enums[x]);
      SolvesElsewhere(enums[x], larger[x], |enums[x].values|, m, larger);
    }
  }

  lemma OrderedPrefix(enums: Enums, order: seq<string>, k: nat)
    requires Ordered(enums, order) && k <= |order|
    ensures Ordered(enums, order[..k])
  {
  }

  /** None of the first names of an order, nor the next one, refers to the next one. */
  lemma ReferencesComeBefore(enums: Enums, order: seq<string>, k: nat, x: string)
    requires Ordered(enums, order) && k < |order| && (x == order[k] || x in order[..k])
    ensures x in enums && order[k] !in enums[x].references && order[k] !in order[..k]
    ensures enums[x].references <= Places(order[..k])
  {
  }

  ghost predicate Solvable(enums: Enums) {
    exists m :: Equations(enums, m)
  }

  lemma PartialIsSolution(enums: Enums, order: seq<string>, m: EnumMap)
    requires Topological(enums, order) && Partial(enums, order, m)
    ensures Solution(enums, m)
  {
  }

  /** The outer loop: whatever the topological order, the result is the one solution, or the lack of one is reported. */
  method Resolve(enums: Enums, order: seq<string>) returns (r: Result<EnumMap, Failure>)
    requires AllWellParsed(enums) && Topological(enums, order)
    ensures r.Ok? ==> Solution(enums, r.value)
    ensures r.Ok? <==> Solvable(enums)
    ensures r.Err? ==> r.error == MissingValue
  {
    hide Fails, Solves, Solution, Equations;
    var result: EnumMap := map[];
    for i := 0 to |order|
      invariant Ordered(enums, order[..i]) && Partial(enums, order[..i], result)
    {
      var m := order[i];
      var items, done := ResolveItems(enums[m], result);
      ReferencesComeBefore(enums, order, i, m);
      if items.Err? {
        OnlyValuesAreMissing(enums[m], done, result, items.error);
        forall other ensures !Equations(enums, other) {
          SolutionIsEquations(enums, other);
          FailureMeansNoSolution(enums, order, i, result, done, items.error, other);
        }
        return Err(items.error);
      }
      OneMoreEnumeration(enums, order, i, result, items.value);
      result := result[m := items.value];
    }
    assert order[..|order|] == order;
    PartialIsSolution(enums, order, result);
    SolutionIsEquations(enums, result);
    r := Ok(result);
  }

  /** EnumParser::enumerations.  Two of the failures that its code provides for never happen. */
  method EnumerateAll(enums: Enums) returns (r: Result<EnumMap, Failure>)
    requires AllWellParsed(enums)
    ensures r.Ok? ==> Equations(enums, r.value)
    ensures r.Ok? <==> Known(enums) && !Cyclic(enums) && Solvable(enums)
    ensures r.Err? ==> match r.error
                       case Loop => Cyclic(enums)
                       case UnknownReference => !Known(enums)
                       case MissingValue => !Solvable(enums)
                       case UnrecognizedLocal | MissingLocal | MissingEnumeration => false
  {
    var sorter := new Sorter(enums);
    var order := sorter.Sort();
    if order.Err? {
      return Err(order.error);
    }
    r := Resolve(enums, order.value);
    if r.Ok? { SolutionIsEquations(enums, r.value); }
  }
}
