/**
 * The bindgen callbacks of the `nginx-sys` build script: a registry of
 * types that other crates already provide, the blocklist and `pub use`
 * lines generated from it, and the answer to bindgen's question whether a
 * blocklisted type implements a derivable trait.
 */
module BindgenCallbacks {
  import opened Results
  import opened Text

  /** bindgen's `DeriveTrait`. */
  datatype DeriveTrait = Copy | Debug | Default | Hash | PartialEqOrPartialOrd

  /** The bit of each trait in the `TypeFlags: u8` bitflags. */
  function FlagBit(t: DeriveTrait): nat
  {
    match t
    case Copy => 1
    case Debug => 2
    case Default => 4
    case Hash => 8
    case PartialEqOrPartialOrd => 16
  }

  /** `TypeFlags`, as the set of traits whose bits are set. */
  type TypeFlags = set<DeriveTrait>

  /** The `u8` value of a `TypeFlags`. */
  function Bits(f: TypeFlags): (b: nat)
    ensures b < 32
  {
    (if Copy in f then 1 else 0) + (if Debug in f then 2 else 0) + (if Default in f then 4 else 0)
    + (if Hash in f then 8 else 0) + (if PartialEqOrPartialOrd in f then 16 else 0)
  }

  /** `TypeFlags::implements`. */
  function Implements(f: TypeFlags, t: DeriveTrait): bool
  {
    t in f
  }

  /** `implements(t)` holds exactly when the bit of `t` is set in the `u8` value. */
  lemma ImplementsIffBitSet(f: TypeFlags, t: DeriveTrait)
    ensures Implements(f, t) <==> (Bits(f) / FlagBit(t)) % 2 == 1
  {
    var c := if Copy in f then 1 else 0;
    var d := if Debug in f then 1 else 0;
    var e := if Default in f then 1 else 0;
    var h := if Hash in f then 1 else 0;
    var p := if PartialEqOrPartialOrd in f then 1 else 0;
    assert Bits(f) == c + 2 * d + 4 * e + 8 * h + 16 * p;
  }

  // ---------------------------------------------------------------------
  // Crates and their types
  // ---------------------------------------------------------------------

  /** One entry of a crate's type map. */
  datatype TypeEntry = TypeEntry(name: string, flags: TypeFlags)

  /**
   * A `HashMap<&str, TypeFlags>`, as its entries in iteration order with
   * pairwise distinct names.
   */
  predicate DistinctNames(es: seq<TypeEntry>)
  {
    forall i, j :: 0 <= i < j < |es| ==> es[i].name != es[j].name
  }

  /** The flags stored under `name`. */
  function Lookup(es: seq<TypeEntry>, name: string): (r: Option<TypeFlags>)
    ensures r.None? <==> forall i :: 0 <= i < |es| ==> es[i].name != name
    ensures r.Some? ==> exists i :: 0 <= i < |es| && es[i] == TypeEntry(name, r.value)
    decreases |es|
  {
    if es == [] then None
    else if es[0].name == name then Some(es[0].flags)
    else
      var r := Lookup(es[1..], name);
      assert forall i :: 1 <= i < |es| ==> es[1..][i - 1] == es[i];
      r
  }

  /** `HashMap::insert`: the value under an existing name is replaced in place, a new name is added. */
  function Insert(es: seq<TypeEntry>, e: TypeEntry): (r: seq<TypeEntry>)
    requires DistinctNames(es)
    ensures DistinctNames(r)
    ensures Lookup(r, e.name) == Some(e.flags)
    ensures forall n :: n != e.name ==> Lookup(r, n) == Lookup(es, n)
    decreases |es|
  {
    if es == [] then [e]
    else if es[0].name == e.name then [e] + es[1..]
    else
      var tail := es[1..];
      assert DistinctNames(tail) by {
        forall i, j | 0 <= i < j < |tail| ensures tail[i].name != tail[j].name {
          assert tail[i] == es[i + 1] && tail[j] == es[j + 1];
        }
      }
      var rest := Insert(tail, e);
      assert Lookup(tail, es[0].name).None? by {
        forall i | 0 <= i < |tail| ensures tail[i].name != es[0].name {
          assert tail[i] == es[i + 1];
        }
      }
      assert Lookup(rest, es[0].name).None?;
      var r := [es[0]] + rest;
      assert DistinctNames(r) by {
        forall i, j | 0 <= i < j < |r| ensures r[i].name != r[j].name {
          assert r[j] == rest[j - 1];
          if i > 0 {
            assert r[i] == rest[i - 1];
          }
        }
      }
      assert forall n :: n != es[0].name ==> Lookup(r, n) == Lookup(rest, n);
      r
  }

  /** `HashMap::extend`: the entries inserted one after another. */
  function Extend(es: seq<TypeEntry>, added: seq<TypeEntry>): (r: seq<TypeEntry>)
    requires DistinctNames(es)
    ensures DistinctNames(r)
    decreases |added|
  {
    if added == [] then es else Extend(Insert(es, added[0]), added[1..])
  }

  /** The flags `added` gives `name` last, if it mentions `name`. */
  function LastFlags(added: seq<TypeEntry>, name: string): Option<TypeFlags>
    decreases |added|
  {
    if added == [] then None
    else match LastFlags(added[1..], name)
      case Some(f) => Some(f)
      case None => if added[0].name == name then Some(added[0].flags) else None
  }

  /** After `extend`, a name has the flags of its last occurrence among the added entries, and otherwise its old flags. */
  lemma {:induction false} ExtendLookup(es: seq<TypeEntry>, added: seq<TypeEntry>, name: string)
    requires DistinctNames(es)
    ensures Lookup(Extend(es, added), name) == (if LastFlags(added, name).Some? then LastFlags(added, name) else Lookup(es, name))
    decreases |added|
  {
    if added != [] {
      ExtendLookup(Insert(es, added[0]), added[1..], name);
    }
  }

  /** A crate providing types: its name and its type map. */
  datatype Crate = Crate(name: string, types: seq<TypeEntry>)

  /** `Crate::new`: the map built from the given entries. */
  function NewCrate(name: string, types: seq<TypeEntry>): (c: Crate)
    ensures c.name == name && DistinctNames(c.types)
  {
    Crate(name, Extend([], types))
  }

  /** `Crate::type_names`. */
  function TypeNames(c: Crate): (ns: seq<string>)
    ensures |ns| == |c.types| && forall i :: 0 <= i < |ns| ==> ns[i] == c.types[i].name
  {
    seq(|c.types|, i requires 0 <= i < |c.types| => c.types[i].name)
  }

  /** The fixed text around a `uses` line. */
  const USES_HEAD: string := "\n#[allow(unused_imports)]\npub use "
  const USES_TAIL: string := "};\n"

  /** `Crate::uses`: `None` for a crate without types, otherwise the `pub use <crate>::{<types>};` line. */
  function CrateUses(c: Crate): (r: Option<string>)
    ensures r.None? <==> c.types == []
    ensures r.Some? ==> r.value == USES_HEAD + c.name + "::{" + Join(TypeNames(c), ",") + USES_TAIL
  {
    if c.types == [] then None else Some(USES_HEAD + c.name + "::{" + Join(TypeNames(c), ",") + USES_TAIL)
  }

  /** The braces of a `uses` line list exactly the crate's type names, in order, when no name contains a comma. */
  lemma UsesListsEveryType(c: Crate)
    requires c.types != [] && Avoids(TypeNames(c), ',')
    ensures var line := CrateUses(c).value;
      var inner := line[|USES_HEAD + c.name + "::{"|..|line| - |USES_TAIL|];
      Split(inner, ",") == TypeNames(c)
  {
    var line := CrateUses(c).value;
    var head := USES_HEAD + c.name + "::{";
    var inner := Join(TypeNames(c), ",");
    assert line == head + inner + USES_TAIL;
    assert line[|head|..|line| - |USES_TAIL|] == inner;
    SplitJoin(TypeNames(c), ',');
  }

  /** The crate names are pairwise distinct and every type map has distinct names. */
  predicate Registry(crates: seq<Crate>)
  {
    (forall i, j :: 0 <= i < j < |crates| ==> crates[i].name != crates[j].name)
    && (forall i :: 0 <= i < |crates| ==> DistinctNames(crates[i].types))
  }

  /** `self.0.iter_mut().find(|c| c.name == source)`, as an index. */
  function IndexOfCrate(crates: seq<Crate>, source: string): (r: Option<nat>)
    ensures r.Some? ==> r.value < |crates| && crates[r.value].name == source
    ensures r.Some? ==> forall i :: 0 <= i < r.value ==> crates[i].name != source
    ensures r.None? ==> forall i :: 0 <= i < |crates| ==> crates[i].name != source
    decreases |crates|
  {
    if crates == [] then None
    else if crates[0].name == source then Some(0)
    else
      match IndexOfCrate(crates[1..], source)
      case None => None
      case Some(k) => Some(k + 1)
  }

  /** The first crate, in insertion order, whose map has `name`, with the stored name and flags. */
  function FindSpec(crates: seq<Crate>, name: string): (r: Option<(nat, string, TypeFlags)>)
    ensures r.Some? ==> r.value.0 < |crates| && r.value.1 == name && Lookup(crates[r.value.0].types, name) == Some(r.value.2)
    ensures r.Some? ==> forall i :: 0 <= i < r.value.0 ==> Lookup(crates[i].types, name).None?
    ensures r.None? ==> forall i :: 0 <= i < |crates| ==> Lookup(crates[i].types, name).None?
    decreases |crates|
  {
    if crates == [] then None
    else match Lookup(crates[0].types, name)
      case Some(f) => Some((0, name, f))
      case None =>
        match FindSpec(crates[1..], name)
        case None => None
        case Some(found) => Some((found.0 + 1, found.1, found.2))
  }

  /** Every type name of every crate, crate by crate. */
  function AllTypeNames(crates: seq<Crate>): seq<string>
    decreases |crates|
  {
    if crates == [] then [] else TypeNames(crates[0]) + AllTypeNames(crates[1..])
  }

  /** The `uses` lines of the crates that have types, in order. */
  function AllUses(crates: seq<Crate>): (r: seq<string>)
    ensures |r| <= |crates|
    decreases |crates|
  {
    if crates == [] then []
    else match CrateUses(crates[0])
      case None => AllUses(crates[1..])
      case Some(u) => [u] + AllUses(crates[1..])
  }

  /** `NgxBindgenCallbacks::blocklist`. */
  function Blocklist(crates: seq<Crate>): string
  {
    Join(AllTypeNames(crates), "|")
  }

  /** `NgxBindgenCallbacks::uses`. */
  function Uses(crates: seq<Crate>): string
  {
    Join(AllUses(crates), "\n")
  }

  /** The blocklist pattern splits back into every registered type name when no name contains `|`. */
  lemma BlocklistNamesEveryType(crates: seq<Crate>)
    requires AllTypeNames(crates) != [] && Avoids(AllTypeNames(crates), '|')
    ensures Split(Blocklist(crates), "|") == AllTypeNames(crates)
  {
    SplitJoin(AllTypeNames(crates), '|');
  }

  /** The parts of a `bindgen::Builder` that `add_to_builder` sets. */
  datatype Builder = Builder(blocklistTypes: seq<string>, rawLines: seq<string>, callbacks: seq<seq<Crate>>)

  /** `add_to_builder`: the blocklist and the `uses` lines are added only when non-empty; the callbacks always. */
  function AddToBuilder(crates: seq<Crate>, b: Builder): (r: Builder)
    ensures r.blocklistTypes == b.blocklistTypes + (if Blocklist(crates) == [] then [] else [Blocklist(crates)])
    ensures r.rawLines == b.rawLines + (if Uses(crates) == [] then [] else [Uses(crates)])
    ensures r.callbacks == b.callbacks + [crates]
  {
    var b1 := if Blocklist(crates) != [] then b.(blocklistTypes := b.blocklistTypes + [Blocklist(crates)]) else b;
    var b2 := if Uses(crates) != [] then b1.(rawLines := b1.rawLines + [Uses(crates)]) else b1;
    b2.(callbacks := b2.callbacks + [crates])
  }

  // ---------------------------------------------------------------------
  // Blocklisted type names
  // ---------------------------------------------------------------------

  /**
   * The `match` of `blocklisted_type_implements_trait` on the blank-split
   * name: `const struct n`, `const n`, `struct n` or `n` give `n`; any
   * other shape is the `unhandled blocklisted type` panic (`None`).
   */
  function ResolveBlocklisted(name: string): (r: Option<string>)
    ensures r.Some? ==> IsWord(r.value)
    ensures r.None? <==>
      (|Words(name)| == 0 || |Words(name)| > 3
       || (|Words(name)| == 3 && (Words(name)[0] != "const" || Words(name)[1] != "struct"))
       || (|Words(name)| == 2 && Words(name)[0] != "const" && Words(name)[0] != "struct"))
  {
    var parts := Words(name);
    if |parts| == 3 && parts[0] == "const" && parts[1] == "struct" then Some(parts[2])
    else if |parts| == 2 && parts[0] == "const" then Some(parts[1])
    else if |parts| == 2 && parts[0] == "struct" then Some(parts[1])
    else if |parts| == 1 then Some(parts[0])
    else None
  }

  /** Each of the four accepted shapes, written with single blanks, resolves to the bare name. */
  lemma ResolveShapes(n: string)
    requires IsWord(n)
    ensures ResolveBlocklisted("const struct " + n) == Some(n)
    ensures ResolveBlocklisted("const " + n) == Some(n)
    ensures ResolveBlocklisted("struct " + n) == Some(n)
    ensures ResolveBlocklisted(n) == Some(n)
  {
    assert IsWord("const") && IsWord("struct");
    assert ["const", "struct", n][1..] == ["struct", n];
    assert ["struct", n][1..] == [n] && ["const", n][1..] == [n];
    assert Join([n], " ") == n;
    assert Join(["struct", n], " ") == "struct " + n;
    assert Join(["const", n], " ") == "const " + n;
    assert Join(["const", "struct", n], " ") == "const " + ("struct " + n);
    assert "const " + ("struct " + n) == "const struct " + n;
    WordsOfJoin(["const", "struct", n]);
    WordsOfJoin(["const", n]);
    WordsOfJoin(["struct", n]);
    WordsOfJoin([n]);
  }

  /** bindgen's `ImplementsTrait`. */
  datatype ImplementsTrait = Yes | Manually | No

  /** The panic of `blocklisted_type_implements_trait` on a name of another shape. */
  datatype BuildPanic = UnhandledBlocklistedType(name: string)

  /** `blocklisted_type_implements_trait` over the registry `crates`. */
  function ImplementsSpec(crates: seq<Crate>, name: string, t: DeriveTrait): (r: Result<Option<ImplementsTrait>, BuildPanic>)
    ensures r.Err? <==> ResolveBlocklisted(name).None?
    ensures r.Err? ==> r.error == UnhandledBlocklistedType(name)
    ensures r == Ok(Some(Yes)) <==>
      ResolveBlocklisted(name).Some? && FindSpec(crates, ResolveBlocklisted(name).value).Some?
      && Implements(FindSpec(crates, ResolveBlocklisted(name).value).value.2, t)
    ensures r.Ok? ==> r.value.None? || r.value == Some(Yes)
  {
    match ResolveBlocklisted(name)
    case None => Err(UnhandledBlocklistedType(name))
    case Some(n) =>
      match FindSpec(crates, n)
      case None => Ok(None)
      case Some(found) => if Implements(found.2, t) then Ok(Some(Yes)) else Ok(None)
  }

  /** `find` always succeeds when some crate has the name, and answers with that crate or an earlier crate that has it as well. */
  lemma {:induction false} FindAtOrBefore(crates: seq<Crate>, name: string, i: nat)
    requires i < |crates| && Lookup(crates[i].types, name).Some?
    ensures FindSpec(crates, name).Some? && FindSpec(crates, name).value.0 <= i
  {
  }

  // ---------------------------------------------------------------------
  // The registry, updated in place
  // ---------------------------------------------------------------------

  /** `NgxBindgenCallbacks`: the `Vec<Crate>` it owns. */
  class NgxBindgenCallbacks {
    var crates: seq<Crate>

    predicate Valid()
      reads this
    {
      Registry(crates)
    }

    /** `NgxBindgenCallbacks::new`. */
    constructor()
      ensures Valid() && crates == []
    {
      crates := [];
    }

    /**
     * `add_external_types`: the types are merged into the crate named
     * `source` if there is one, and otherwise form a new crate at the end.
     */
    method AddExternalTypes(source: string, types: seq<TypeEntry>)
      requires Valid()
      modifies this
      ensures Valid()
      ensures match IndexOfCrate(old(crates), source)
        case Some(i) => crates == old(crates)[i := Crate(source, Extend(old(crates)[i].types, types))]
        case None => crates == old(crates) + [NewCrate(source, types)]
    {
      var idx := IndexOfCrate(crates, source);
      if idx.Some? {
        var c := crates[idx.value];
        crates := crates[idx.value := Crate(source, Extend(c.types, types))];
      } else {
        crates := crates + [NewCrate(source, types)];
      }
    }

    /** `find`: the nested loops over the crates and their maps, returning at the first hit. */
    method Find(name: string) returns (r: Option<(nat, string, TypeFlags)>)
      ensures r == FindSpec(crates, name)
    {
      var ci := 0;
      while ci < |crates|
        invariant 0 <= ci <= |crates|
        invariant FindSpec(crates, name) == FindSpecFrom(crates, name, ci)
      {
        var types := crates[ci].types;
        var ti := 0;
        while ti < |types|
          invariant 0 <= ti <= |types|
          invariant forall k :: 0 <= k < ti ==> types[k].name != name
        {
          if types[ti].name == name {
            LookupFirst(types, ti, name);
            FindSpecFromHit(crates, name, ci);
            return Some((ci, types[ti].name, types[ti].flags));
          }
          ti := ti + 1;
        }
        FindSpecFromMiss(crates, name, ci);
        ci := ci + 1;
      }
      FindSpecFromEnd(crates, name);
      return None;
    }

    /** `blocklisted_type_implements_trait`. */
    method BlocklistedTypeImplementsTrait(name: string, t: DeriveTrait) returns (r: Result<Option<ImplementsTrait>, BuildPanic>)
      ensures r == ImplementsSpec(crates, name, t)
    {
      var typeName := ResolveBlocklisted(name);
      if typeName.None? {
        return Err(UnhandledBlocklistedType(name));
      }
      var found := Find(typeName.value);
      if found.None? {
        return Ok(None);
      }
      if Implements(found.value.2, t) {
        return Ok(Some(Yes));
      }
      return Ok(None);
    }
  }

  /** `FindSpec` over the crates from index `from` on, with indices into the whole list. */
  function FindSpecFrom(crates: seq<Crate>, name: string, from: nat): Option<(nat, string, TypeFlags)>
    requires from <= |crates|
  {
    match FindSpec(crates[from..], name)
    case None => None
    case Some(found) => Some((found.0 + from, found.1, found.2))
  }

  lemma FindSpecFromMiss(crates: seq<Crate>, name: string, from: nat)
    requires from < |crates| && Lookup(crates[from].types, name).None?
    ensures FindSpecFrom(crates, name, from) == FindSpecFrom(crates, name, from + 1)
  {
    assert crates[from..][1..] == crates[from + 1..];
  }

  lemma FindSpecFromHit(crates: seq<Crate>, name: string, from: nat)
    requires from < |crates| && Lookup(crates[from].types, name).Some?
    ensures FindSpecFrom(crates, name, from) == Some((from, name, Lookup(crates[from].types, name).value))
  {
  }

  lemma FindSpecFromEnd(crates: seq<Crate>, name: string)
    ensures FindSpecFrom(crates, name, |crates|) == None
  {
  }

  /** The inner loop's hit is what `Lookup` returns. */
  lemma {:induction false} LookupFirst(es: seq<TypeEntry>, k: nat, name: string)
    requires k < |es| && es[k].name == name
    requires forall j :: 0 <= j < k ==> es[j].name != name
    ensures Lookup(es, name) == Some(es[k].flags)
    decreases k
  {
    if k > 0 {
      assert forall j :: 0 <= j < k - 1 ==> es[1..][j] == es[j + 1];
      LookupFirst(es[1..], k - 1, name);
    }
  }
}
