/**
 * The `shared_dict` example module: a string-to-string dictionary kept in
 * a shared memory zone, read and written through nginx variables. The
 * dictionary is an ordered map; here it is the list of its entries in
 * key order, which is also the order `iter()` visits them.
 */
module SharedDict {
  import opened Results
  import opened NgxConsts
  import opened HttpRequest

  // ---------------------------------------------------------------------
  // The ordered map
  // ---------------------------------------------------------------------

  /** One key/value pair of the dictionary. */
  datatype Entry = Entry(key: string, value: string)

  /** The byte-wise lexicographic order of `NgxString`'s `Ord`. */
  predicate Less(a: string, b: string)
    decreases |a|
  {
    |b| > 0 && (|a| == 0 || a[0] < b[0] || (a[0] == b[0] && Less(a[1..], b[1..])))
  }

  /** `Less` is irreflexive. */
  lemma {:induction false} LessIrreflexive(a: string)
    ensures !Less(a, a)
    decreases |a|
  {
    if |a| > 0 {
      LessIrreflexive(a[1..]);
    }
  }

  /** `Less` is transitive. */
  lemma {:induction false} LessTransitive(a: string, b: string, c: string)
    requires Less(a, b) && Less(b, c)
    ensures Less(a, c)
    decreases |a|
  {
    if |a| > 0 && a[0] == b[0] && b[0] == c[0] {
      LessTransitive(a[1..], b[1..], c[1..]);
    }
  }

  /** Any two different strings are ordered one way or the other. */
  lemma {:induction false} LessTotal(a: string, b: string)
    requires a != b
    ensures Less(a, b) || Less(b, a)
    decreases |a|
  {
    if |a| > 0 && |b| > 0 && a[0] == b[0] {
      assert a == [a[0]] + a[1..] && b == [b[0]] + b[1..];
      LessTotal(a[1..], b[1..]);
    }
  }

  /** The keys of the entries. */
  function Keys(es: seq<Entry>): (ks: set<string>)
    ensures forall i :: 0 <= i < |es| ==> es[i].key in ks
    ensures forall k :: k in ks ==> exists i :: 0 <= i < |es| && es[i].key == k
    decreases |es|
  {
    if es == [] then {} else {es[0].key} + Keys(es[1..])
  }

  /** What a red-black tree's in-order walk yields: strictly increasing keys. */
  predicate Sorted(es: seq<Entry>)
  {
    forall i, j :: 0 <= i < j < |es| ==> Less(es[i].key, es[j].key)
  }

  /** A sorted list with a head below every key of its tail. */
  lemma SortedCons(e: Entry, rest: seq<Entry>)
    requires Sorted(rest)
    requires forall k :: k in Keys(rest) ==> Less(e.key, k)
    ensures Sorted([e] + rest)
  {
    var es := [e] + rest;
    forall i, j | 0 <= i < j < |es| ensures Less(es[i].key, es[j].key) {
      assert es[j] == rest[j - 1];
      if i > 0 {
        assert es[i] == rest[i - 1];
      }
    }
  }

  /** The value stored under `key`. */
  function Lookup(es: seq<Entry>, key: string): (r: Option<string>)
    ensures r.None? <==> key !in Keys(es)
    decreases |es|
  {
    if es == [] then None
    else if es[0].key == key then Some(es[0].value)
    else Lookup(es[1..], key)
  }

  /** In a sorted list, the lookup finds the one entry with that key. */
  lemma {:induction false} LookupSorted(es: seq<Entry>, i: nat)
    requires Sorted(es) && i < |es|
    ensures Lookup(es, es[i].key) == Some(es[i].value)
    decreases i
  {
    if i > 0 {
      if es[0].key == es[i].key {
        LessIrreflexive(es[0].key);
        assert false;
      }
      assert Sorted(es[1..]) by {
        forall a, b | 0 <= a < b < |es[1..]| ensures Less(es[1..][a].key, es[1..][b].key) {
          assert es[1..][a] == es[a + 1] && es[1..][b] == es[b + 1];
        }
      }
      assert es[1..][i - 1] == es[i];
      LookupSorted(es[1..], i - 1);
    }
  }

  /**
   * `try_insert`: the entry goes in key order; an entry with the same key
   * has its value replaced.
   */
  function Insert(es: seq<Entry>, key: string, value: string): (r: seq<Entry>)
    ensures Keys(r) == Keys(es) + {key}
    decreases |es|
  {
    if es == [] then [Entry(key, value)]
    else if es[0].key == key then [Entry(key, value)] + es[1..]
    else if Less(key, es[0].key) then [Entry(key, value)] + es
    else [es[0]] + Insert(es[1..], key, value)
  }

  /** The tail of a sorted list is sorted, and its head is below every key of the tail. */
  lemma SortedTail(es: seq<Entry>)
    requires Sorted(es) && es != []
    ensures Sorted(es[1..])
    ensures forall k :: k in Keys(es[1..]) ==> Less(es[0].key, k)
  {
    var tail := es[1..];
    forall a, b | 0 <= a < b < |tail| ensures Less(tail[a].key, tail[b].key) {
      assert tail[a] == es[a + 1] && tail[b] == es[b + 1];
    }
    forall k | k in Keys(tail) ensures Less(es[0].key, k) {
      var i :| 0 <= i < |tail| && tail[i].key == k;
      assert tail[i] == es[i + 1];
    }
  }

  /** Inserting keeps the entries in key order. */
  lemma {:induction false} InsertSorted(es: seq<Entry>, key: string, value: string)
    requires Sorted(es)
    ensures Sorted(Insert(es, key, value))
    decreases |es|
  {
    if es != [] {
      SortedTail(es);
      var tail := es[1..];
      if es[0].key == key {
        SortedCons(Entry(key, value), tail);
      } else if Less(key, es[0].key) {
        forall k | k in Keys(es) ensures Less(key, k) {
          if k != es[0].key {
            LessTransitive(key, es[0].key, k);
          }
        }
        SortedCons(Entry(key, value), es);
      } else {
        LessTotal(key, es[0].key);
        InsertSorted(tail, key, value);
        SortedCons(es[0], Insert(tail, key, value));
      }
    }
  }

  /** After an insert, the key holds the new value and every other key is as before. */
  lemma {:induction false} LookupInsert(es: seq<Entry>, key: string, value: string, other: string)
    ensures Lookup(Insert(es, key, value), key) == Some(value)
    ensures other != key ==> Lookup(Insert(es, key, value), other) == Lookup(es, other)
    decreases |es|
  {
    if es != [] && es[0].key != key && !Less(key, es[0].key) {
      LookupInsert(es[1..], key, value, other);
    }
  }

  /** `remove`: the entry with that key, if any, is dropped. */
  function Remove(es: seq<Entry>, key: string): (r: seq<Entry>)
    ensures |r| <= |es|
    decreases |es|
  {
    if es == [] then []
    else if es[0].key == key then Remove(es[1..], key)
    else [es[0]] + Remove(es[1..], key)
  }

  /** Removing leaves the other entries in order and makes the key absent, whatever else it holds. */
  lemma {:induction false} RemoveEffect(es: seq<Entry>, key: string, other: string)
    requires Sorted(es)
    ensures Sorted(Remove(es, key))
    ensures Keys(Remove(es, key)) == Keys(es) - {key}
    ensures Lookup(Remove(es, key), key).None?
    ensures other != key ==> Lookup(Remove(es, key), other) == Lookup(es, other)
    decreases |es|
  {
    if es != [] {
      var tail := es[1..];
      SortedTail(es);
      RemoveEffect(tail, key, other);
      var rest := Remove(tail, key);
      if es[0].key != key {
        assert Remove(es, key) == [es[0]] + rest;
        assert Keys([es[0]] + rest) == {es[0].key} + Keys(rest);
        SortedCons(es[0], rest);
      } else {
        assert Remove(es, key) == rest;
      }
    }
  }

  /** The shared `RbTreeMap` the zone holds. */
  class Dict {
    var entries: seq<Entry>

    ghost predicate Valid()
      reads this
    {
      Sorted(entries)
    }

    /** `RbTreeMap::try_new_in`: an empty map. */
    constructor ()
      ensures Valid() && entries == []
    {
      entries := [];
    }

    /** `remove(key)`. */
    method RemoveKey(key: string)
      requires Valid()
      modifies this
      ensures Valid()
      ensures entries == Remove(old(entries), key)
    {
      RemoveEffect(entries, key, key);
      entries := Remove(entries, key);
    }

    /**
     * `try_insert(key, value)`: a present key has its value replaced in its
     * node; a new key needs a node, and `nodeOk` is whether one can be
     * allocated (the map is left alone when it cannot).
     */
    method TryInsert(key: string, value: string, nodeOk: bool) returns (ok: bool)
      requires Valid()
      modifies this
      ensures Valid()
      ensures ok == (nodeOk || key in Keys(old(entries)))
      ensures ok ==> entries == Insert(old(entries), key, value)
      ensures !ok ==> entries == old(entries)
    {
      if !nodeOk && key !in Keys(entries) {
        return false;
      }
      InsertSorted(entries, key, value);
      entries := Insert(entries, key, value);
      ok := true;
    }

    /** `*shared.write() = tree` with a new, empty tree. */
    method Clear()
      modifies this
      ensures Valid() && entries == []
    {
      entries := [];
    }
  }

  // ---------------------------------------------------------------------
  // The shared memory zone and its lazily created map
  // ---------------------------------------------------------------------

  /**
   * A shared memory zone: whether a slab pool can be taken from it, and
   * the slab pool's `data` pointer (`None` while it is null).
   */
  class ShmZone {
    const hasSlab: bool
    var data: Option<Dict>

    ghost predicate Valid()
      reads this, if data.Some? then {data.value} else {}
    {
      data.Some? ==> data.value.Valid()
    }

    constructor (hasSlab: bool)
      ensures this.hasSlab == hasSlab && data.None? && Valid()
    {
      this.hasSlab := hasSlab;
      data := None;
    }

    /**
     * `ngx_http_shared_dict_get_shared`: without a slab pool there is no
     * map; a map is created only while `data` is null (when `allocOk`,
     * the tree and its lock can be allocated), and the stored map is
     * returned from then on.
     */
    method GetShared(allocOk: bool) returns (d: Option<Dict>)
      requires Valid()
      modifies this
      ensures Valid()
      ensures !hasSlab ==> d.None? && data == old(data)
      ensures hasSlab && old(data).Some? ==> d == old(data) && data == old(data)
      ensures hasSlab && old(data).None? && allocOk ==>
        d.Some? && fresh(d.value) && d.value.entries == [] && data == d
      ensures hasSlab && old(data).None? && !allocOk ==> d.None? && data.None?
    {
      if !hasSlab {
        return None;
      }
      if data.None? {
        if !allocOk {
          return None;
        }
        var shared := new Dict();
        data := Some(shared);
      }
      d := data;
    }

    /** `ngx_http_shared_dict_zone_init`: `NGX_OK` exactly when the map is there, `get_shared` having kept or created it. */
    method ZoneInit(allocOk: bool) returns (rc: int)
      requires Valid()
      modifies this
      ensures Valid()
      ensures MapKeptOrCreated(this, allocOk)
      ensures rc == NGX_OK <==> hasSlab && (old(data).Some? || allocOk)
      ensures rc == NGX_OK ==> data.Some? && data.value.entries == old(DictEntries(this))
      ensures rc != NGX_OK ==> rc == NGX_ERROR
    {
      var d := GetShared(allocOk);
      rc := if d.Some? then NGX_OK else NGX_ERROR;
    }
  }

  /**
   * What `get_shared` does to the zone's `data`: without a slab pool it is
   * left alone; a stored map is kept; while it is null a fresh map is stored
   * when `allocOk`, and it stays null otherwise.
   */
  twostate predicate MapKeptOrCreated(zone: ShmZone, allocOk: bool)
    reads zone
  {
    (!zone.hasSlab ==> zone.data == old(zone.data))
    && (zone.hasSlab && old(zone.data).Some? ==> zone.data == old(zone.data))
    && (zone.hasSlab && old(zone.data).None? && allocOk ==> zone.data.Some? && fresh(zone.data.value))
    && (zone.hasSlab && old(zone.data).None? && !allocOk ==> zone.data.None?)
  }

  // ---------------------------------------------------------------------
  // `$shared_dict_entries`
  // ---------------------------------------------------------------------

  /** The digit character of `d < 10`. */
  function Digit(d: nat): (c: char)
    requires d < 10
    ensures '0' <= c <= '9' && c as int - '0' as int == d
  {
    ['0', '1', '2', '3', '4', '5', '6', '7', '8', '9'][d]
  }

  /** How `{values}` formats a `usize`: its decimal digits, without leading zeros. */
  function DecimalString(n: nat): (s: string)
    ensures |s| > 0 && forall i :: 0 <= i < |s| ==> '0' <= s[i] <= '9'
    ensures |s| > 1 ==> s[0] != '0'
    decreases n
  {
    if n < 10 then [Digit(n)] else DecimalString(n / 10) + [Digit(n % 10)]
  }

  /** The number a string of decimal digits denotes. */
  function DecimalValue(s: string): nat
    requires forall i :: 0 <= i < |s| ==> '0' <= s[i] <= '9'
    decreases |s|
  {
    if s == [] then 0 else DecimalValue(s[..|s| - 1]) * 10 + (s[|s| - 1] as int - '0' as int)
  }

  /** Reading the formatted number back gives the number. */
  lemma {:induction false} DecimalRoundTrip(n: nat)
    ensures DecimalValue(DecimalString(n)) == n
    decreases n
  {
    if n >= 10 {
      var s := DecimalString(n);
      assert s[..|s| - 1] == DecimalString(n / 10);
      DecimalRoundTrip(n / 10);
    }
  }

  /** `10^e`. */
  function Pow10(e: nat): (p: nat)
    ensures p >= 1
  {
    if e == 0 then 1 else 10 * Pow10(e - 1)
  }

  /** `usize::checked_ilog10` of a non-zero `n`: the exponent of the largest power of ten not above `n`. */
  function ILog10(n: nat): (e: nat)
    requires n > 0
    ensures Pow10(e) <= n < Pow10(e + 1)
    decreases n
  {
    if n < 10 then 0 else 1 + ILog10(n / 10)
  }

  /** A non-zero number has `ilog10 + 1` digits. */
  lemma {:induction false} DecimalLength(n: nat)
    ensures n == 0 ==> |DecimalString(n)| == 1
    ensures n > 0 ==> |DecimalString(n)| == ILog10(n) + 1
    decreases n
  {
    if n >= 10 {
      DecimalLength(n / 10);
    }
  }

  /** The `"{key} = {value}; "` item of one entry. */
  function Item(e: Entry): (s: string)
    ensures |s| == |e.key| + |e.value| + 5
  {
    e.key + " = " + e.value + "; "
  }

  /** The items of the entries, in order. */
  function Items(es: seq<Entry>): string
    decreases |es|
  {
    if es == [] then [] else Items(es[..|es| - 1]) + Item(es[|es| - 1])
  }

  /** The value of `$shared_dict_entries`: `"<count>; "`, then each entry's item in iteration order. */
  function Render(es: seq<Entry>): (s: string)
    ensures |s| >= |DecimalString(|es|)| + 2 && s[..|DecimalString(|es|)| + 2] == DecimalString(|es|) + "; "
  {
    DecimalString(|es|) + "; " + Items(es)
  }

  /** The entries' items, starting from the first, one after another. */
  lemma {:induction false} ItemsCons(e: Entry, es: seq<Entry>)
    ensures Items([e] + es) == Item(e) + Items(es)
    decreases |es|
  {
    if es != [] {
      var all := [e] + es;
      assert all[..|all| - 1] == [e] + es[..|es| - 1];
      ItemsCons(e, es[..|es| - 1]);
    }
  }

  /** `5 + |key| + |value|` summed over the entries: what the first loop adds to `len`. */
  function EntriesLength(es: seq<Entry>): nat
    decreases |es|
  {
    if es == [] then 0 else EntriesLength(es[..|es| - 1]) + |es[|es| - 1].key| + |es[|es| - 1].value| + 5
  }

  /** The capacity reserved for the string: the entries' part, then `ilog10(count)` (or 0) plus 3. */
  function Reserved(es: seq<Entry>): nat
  {
    EntriesLength(es) + (if |es| == 0 then 0 else ILog10(|es|)) + 3
  }

  /** The entries' items are exactly as long as the first loop counts. */
  lemma {:induction false} ItemsLength(es: seq<Entry>)
    ensures |Items(es)| == EntriesLength(es)
    decreases |es|
  {
    if es != [] {
      ItemsLength(es[..|es| - 1]);
    }
  }

  /** The reserved capacity is exactly the length of the string written, so it never grows. */
  lemma ReservedIsExact(es: seq<Entry>)
    ensures Reserved(es) == |Render(es)|
  {
    ItemsLength(es);
    DecimalLength(|es|);
  }

  /** One more entry for the first loop. */
  lemma EntriesLengthStep(es: seq<Entry>, i: nat)
    requires i < |es|
    ensures EntriesLength(es[..i + 1]) == EntriesLength(es[..i]) + |es[i].key| + |es[i].value| + 5
  {
    assert es[..i + 1][..i] == es[..i];
  }

  /** One more entry for the second loop. */
  lemma ItemsStep(es: seq<Entry>, i: nat)
    requires i < |es|
    ensures Items(es[..i + 1]) == Items(es[..i]) + Item(es[i])
  {
    assert es[..i + 1][..i] == es[..i];
  }

  /** The first loop of `ngx_http_shared_dict_get_entries`: the entries' part of the length, and their number. */
  method CountEntries(es: seq<Entry>) returns (len: nat, values: nat)
    ensures values == |es|
    ensures len == EntriesLength(es)
  {
    len := 0;
    values := 0;
    var i := 0;
    while i < |es|
      invariant 0 <= i <= |es| && values == i
      invariant len == EntriesLength(es[..i])
    {
      EntriesLengthStep(es, i);
      len := len + |es[i].key| + |es[i].value| + |" = ; "|;
      values := values + 1;
      i := i + 1;
    }
    assert es[..|es|] == es;
  }

  /** The second loop of `ngx_http_shared_dict_get_entries`: `"{key} = {value}; "` for each entry, after `header`. */
  method WriteItems(header: string, es: seq<Entry>) returns (s: string)
    ensures s == header + Items(es)
  {
    s := header;
    assert Items(es[..0]) == [];
    var i := 0;
    while i < |es|
      invariant 0 <= i <= |es|
      invariant s == header + Items(es[..i])
    {
      ItemsStep(es, i);
      s := s + Item(es[i]);
      i := i + 1;
    }
    assert es[..|es|] == es;
  }

  /**
   * `ngx_http_shared_dict_get_entries` over the map's entries: the first
   * loop gives the capacity to reserve, then the header `"{values}; "`
   * and one item per entry are written.
   */
  method FormatEntries(es: seq<Entry>) returns (s: string, reserved: nat)
    ensures s == Render(es)
    ensures reserved == |s|
  {
    var len, values := CountEntries(es);
    len := len + (if values == 0 then 0 else ILog10(values)) + |"0; "|;
    s := WriteItems(DecimalString(values) + "; ", es);
    reserved := len;
    ReservedIsExact(es);
  }

  // ---------------------------------------------------------------------
  // The `shared_dict` directive's variable name
  // ---------------------------------------------------------------------

  /** What a configuration handler returns. */
  datatype ConfOutcome = ConfOk(name: string) | ConfError | Panic

  /**
   * The name check of `ngx_http_shared_dict_add_variable` as written:
   * the first byte is read unchecked, so an empty argument (`""` in the
   * configuration) panics instead of being rejected.
   */
  function CheckVariableNameAsWritten(name: string): (r: ConfOutcome)
    ensures name == [] ==> r == Panic
    ensures name != [] && name[0] != '$' ==> r == ConfError
    ensures name != [] && name[0] == '$' ==> r == ConfOk(name[1..])
  {
    if |name| == 0 then Panic
    else if name[0] != '$' then ConfError
    else ConfOk(name[1..])
  }

  /** The empty argument makes the as-written check panic. */
  lemma EmptyNamePanics()
    ensures CheckVariableNameAsWritten("") == Panic
  {
  }

  /** The check as intended: a name that does not start with `$` is rejected, the empty one included. */
  function CheckVariableName(name: string): (r: ConfOutcome)
    ensures !r.Panic?
    ensures r.ConfOk? <==> |name| > 0 && name[0] == '$'
    ensures r.ConfOk? ==> "$" + r.name == name
  {
    if |name| > 0 && name[0] == '$' then ConfOk(name[1..]) else ConfError
  }

  /** The corrected check agrees with the written one wherever that one does not panic. */
  lemma CheckVariableNameAgrees(name: string)
    ensures CheckVariableNameAsWritten(name) != Panic ==> CheckVariableName(name) == CheckVariableNameAsWritten(name)
  {
  }

  /** Registering `"$" + n` gives back `n`. */
  lemma CheckVariableNameStrips(n: string)
    ensures CheckVariableName("$" + n) == ConfOk(n)
  {
    assert ("$" + n)[1..] == n;
  }

  /**
   * `ngx_http_shared_dict_add_variable` as written: the key's complex
   * value is allocated and compiled, the name checked by
   * `CheckVariableNameAsWritten`, and the variable added; each step can
   * fail with `NGX_CONF_ERROR`, and an empty name panics.
   */
  function AddVariableAsWritten(allocOk: bool, compileOk: bool, name: string, addOk: bool): (r: ConfOutcome)
    ensures r.Panic? <==> allocOk && compileOk && name == []
    ensures r.ConfOk? <==> allocOk && compileOk && addOk && name != [] && name[0] == '$'
    ensures r.ConfOk? ==> "$" + r.name == name
  {
    if !allocOk || !compileOk then ConfError
    else match CheckVariableNameAsWritten(name)
      case ConfOk(n) => if addOk then ConfOk(n) else ConfError
      case other => other
  }

  /**
   * `ngx_http_shared_dict_add_variable` with the corrected name check:
   * the same steps, and the empty name is rejected like any other name
   * without `$`.
   */
  function AddVariable(allocOk: bool, compileOk: bool, name: string, addOk: bool): (r: ConfOutcome)
    ensures r.ConfOk? <==> allocOk && compileOk && addOk && CheckVariableName(name).ConfOk?
    ensures r.ConfOk? ==> "$" + r.name == name
    ensures !r.Panic?
  {
    if !allocOk || !compileOk then ConfError
    else match CheckVariableName(name)
      case ConfOk(n) => if addOk then ConfOk(n) else ConfError
      case _ => ConfError
  }

  /** The corrected handler agrees with the written one wherever that one does not panic. */
  lemma AddVariableAgrees(allocOk: bool, compileOk: bool, name: string, addOk: bool)
    ensures !AddVariableAsWritten(allocOk, compileOk, name, addOk).Panic? ==>
      AddVariable(allocOk, compileOk, name, addOk) == AddVariableAsWritten(allocOk, compileOk, name, addOk)
  {
    CheckVariableNameAgrees(name);
  }

  // ---------------------------------------------------------------------
  // The per-key variable's get and set handlers
  // ---------------------------------------------------------------------

  /** The parts of `ngx_variable_value_t` the handlers write. */
  datatype VarValue = VarValue(data: string, valid: bool, noCacheable: bool, notFound: bool)

  /**
   * `ngx_http_shared_dict_get_variable` on the map `es`: `key` is the
   * evaluated complex value (`None` when that fails), `copyOk` whether
   * the value can be copied into the request pool. A missing key sets
   * `not_found` and yields `None`; a found one fills the value in and
   * yields `NGX_OK`.
   */
  function GetVariable(es: seq<Entry>, key: Option<string>, copyOk: bool, v: VarValue): (r: (VarValue, Option<int>))
    ensures key.None? ==> r == (v, None)
    ensures key.Some? && (Lookup(es, key.value).None? || !copyOk) ==> r == (v.(notFound := true), None)
    ensures key.Some? && Lookup(es, key.value).Some? && copyOk ==>
      r == (VarValue(Lookup(es, key.value).value, true, false, false), Some(NGX_OK))
  {
    if key.None? then (v, None)
    else
      var value := if copyOk then Lookup(es, key.value) else None;
      match value
      case None => (v.(notFound := true), None)
      case Some(x) => (VarValue(x, true, false, false), Some(NGX_OK))
  }

  /** A value set in the map is what the variable reads back. */
  lemma GetAfterInsert(es: seq<Entry>, key: string, value: string, v: VarValue)
    ensures GetVariable(Insert(es, key, value), Some(key), true, v) == (VarValue(value, true, false, false), Some(NGX_OK))
  {
    LookupInsert(es, key, value, key);
  }

  /** A deleted key reads as not found. */
  lemma GetAfterRemove(es: seq<Entry>, key: string, v: VarValue)
    requires Sorted(es)
    ensures GetVariable(Remove(es, key), Some(key), true, v) == (v.(notFound := true), None)
  {
    RemoveEffect(es, key, key);
  }

  /**
   * `ngx_http_shared_dict_set_variable`: a `DELETE` request removes the
   * key; any other method inserts key → value, unless copying either of
   * them into the slab pool fails (`keyCopyOk`, `valueCopyOk`). The result
   * of `try_insert` (`insertOk`) is discarded: the handler succeeds
   * whether or not the map took the entry.
   */
  method SetVariable(zone: ShmZone, m: Method, key: Option<string>, value: string,
                     allocOk: bool, keyCopyOk: bool, valueCopyOk: bool, insertOk: bool)
    returns (handled: bool)
    requires zone.Valid()
    modifies zone, if zone.data.Some? then {zone.data.value} else {}
    ensures zone.Valid()
    ensures key.None? ==> !handled && zone.data == old(zone.data)
    ensures key.Some? ==> MapKeptOrCreated(zone, allocOk)
    ensures handled <==>
      key.Some? && zone.hasSlab && (old(zone.data).Some? || allocOk) && (m == Delete || (keyCopyOk && valueCopyOk))
    ensures handled ==> zone.data.Some?
    ensures handled && m == Delete ==> zone.data.value.entries == Remove(old(DictEntries(zone)), key.value)
    ensures handled && m != Delete && (insertOk || key.value in Keys(old(DictEntries(zone)))) ==>
      zone.data.value.entries == Insert(old(DictEntries(zone)), key.value, value)
    ensures handled && m != Delete && !insertOk && key.value !in Keys(old(DictEntries(zone))) ==>
      zone.data.value.entries == old(DictEntries(zone))
    ensures !handled && zone.data.Some? ==> zone.data.value.entries == old(DictEntries(zone))
  {
    if key.None? {
      return false;
    }
    ghost var es := DictEntries(zone);
    var shared := zone.GetShared(allocOk);
    if shared.None? {
      return false;
    }
    var dict := shared.value;
    assert dict.entries == es;
    if m == Delete {
      dict.RemoveKey(key.value);
    } else {
      if !keyCopyOk || !valueCopyOk {
        return false;
      }
      var _ := dict.TryInsert(key.value, value, insertOk);
    }
    handled := true;
  }

  /** The entries of the zone's map, or none while there is no map. */
  function DictEntries(zone: ShmZone): seq<Entry>
    reads zone, if zone.data.Some? then {zone.data.value} else {}
  {
    if zone.data.Some? then zone.data.value.entries else []
  }

  /**
   * `ngx_http_shared_dict_get_entries`: the rendering of the map, with
   * the capacity reserved up front; `None` when the map cannot be had or
   * `try_reserve` fails (`reserveOk`). The reservation is exactly the
   * rendering's length, so the `write!` calls never need to grow the string.
   */
  method GetEntries(zone: ShmZone, allocOk: bool, reserveOk: bool, v: VarValue) returns (w: VarValue, r: Option<int>)
    requires zone.Valid()
    modifies zone
    ensures zone.Valid()
    ensures MapKeptOrCreated(zone, allocOk)
    ensures zone.data.Some? ==> zone.data.value.entries == old(DictEntries(zone))
    ensures r.Some? <==> zone.hasSlab && (old(zone.data).Some? || allocOk) && reserveOk
    ensures r.None? ==> w == v
    ensures r.Some? ==> r.value == NGX_OK && w == VarValue(Render(old(DictEntries(zone))), true, true, false)
  {
    var shared := zone.GetShared(allocOk);
    if shared.None? {
      return v, None;
    }
    if !reserveOk {
      return v, None;
    }
    var s, reserved := FormatEntries(shared.value.entries);
    w := VarValue(s, true, true, false);
    r := Some(NGX_OK);
  }

  /**
   * `ngx_http_shared_dict_set_entries`: the map is replaced by a new,
   * empty one, unless allocating that tree fails (`treeOk`).
   */
  method SetEntries(zone: ShmZone, allocOk: bool, treeOk: bool) returns (handled: bool)
    requires zone.Valid()
    modifies zone, if zone.data.Some? then {zone.data.value} else {}
    ensures zone.Valid()
    ensures MapKeptOrCreated(zone, allocOk)
    ensures handled <==> zone.hasSlab && (old(zone.data).Some? || allocOk) && treeOk
    ensures handled ==> zone.data.Some? && zone.data.value.entries == []
    ensures !handled && zone.data.Some? ==> zone.data.value.entries == old(DictEntries(zone))
  {
    var shared := zone.GetShared(allocOk);
    if shared.None? || !treeOk {
      return false;
    }
    shared.value.Clear();
    handled := true;
  }

  /** After clearing, the entries variable reads `"0; "`. */
  lemma RenderEmpty()
    ensures Render([]) == "0; "
  {
  }
}
