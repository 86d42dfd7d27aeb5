/** Clamping the diagnostics context a reporter's page sends along: every
    dimension of an arbitrary JSON value is bounded before it is stored. */
module ContextSanitizer {
  import opened Basics

  /** A parsed JSON value; an object's entries are in enumeration order. */
  datatype Json =
    | Null
    | Bool(flag: bool)
    | Number(value: real)
    | Str(text: string)
    | Arr(items: seq<Json>)
    | Obj(entries: seq<Entry>)

  datatype Entry = Entry(key: string, value: Json)

  const MAX_TOTAL_BYTES := 64 * 1024
  const MAX_STRING := 1_000
  const MAX_ARRAY_ITEMS := 25
  const MAX_OBJECT_KEYS := 40
  const MAX_DEPTH := 5
  const MAX_KEY := 100
  const ELLIPSIS := '\U{2026}'
  const DANGEROUS_KEYS := {"__proto__", "constructor", "prototype"}

  function Take<T>(s: seq<T>, n: nat): seq<T> { if |s| > n then s[..n] else s }

  function ClampString(s: string): string { if |s| > MAX_STRING then s[..MAX_STRING] + [ELLIPSIS] else s }

  function SafeEntries(entries: seq<Entry>): seq<Entry>
    decreases |entries|
  {
    if entries == [] then []
    else
      var before, last := SafeEntries(entries[..|entries| - 1]), entries[|entries| - 1];
      if last.key in DANGEROUS_KEYS then before else before + [last]
  }

  /** Assigning a property: an existing key keeps its place and gets the new value. */
  function Assign(out: seq<Entry>, key: string, value: Json): seq<Entry>
    decreases |out|
  {
    if out == [] then [Entry(key, value)]
    else if out[0].key == key then [Entry(key, value)] + out[1..]
    else [out[0]] + Assign(out[1..], key, value)
  }

  /** Levels left below and including `depth`. */
  function Levels(depth: nat): nat { if depth > MAX_DEPTH then 0 else MAX_DEPTH + 1 - depth }

  /** The clamped value, or nothing where JavaScript has `undefined`. */
  function Clamp(v: Json, depth: nat): Option<Json>
    decreases Levels(depth), 0
  {
    if depth > MAX_DEPTH then None
    else match v
      case Str(s) => Some(Str(ClampString(s)))
      case Arr(items) => Some(Arr(ClampItems(Take(items, MAX_ARRAY_ITEMS), depth + 1)))
      case Obj(entries) => Some(Obj(ClampEntries(Take(SafeEntries(entries), MAX_OBJECT_KEYS), depth + 1)))
      case _ => Some(v)
  }

  function ClampItems(items: seq<Json>, depth: nat): seq<Json>
    decreases Levels(depth), |items| + 1
  {
    if items == [] then []
    else
      var before := ClampItems(items[..|items| - 1], depth);
      match Clamp(items[|items| - 1], depth)
      case None => before
      case Some(v) => before + [v]
  }

  function ClampEntries(entries: seq<Entry>, depth: nat): seq<Entry>
    decreases Levels(depth), |entries| + 1
  {
    if entries == [] then []
    else
      var before, last := ClampEntries(entries[..|entries| - 1], depth), entries[|entries| - 1];
      match Clamp(last.value, depth)
      case None => before
      case Some(v) => Assign(before, Take(last.key, MAX_KEY), v)
  }

  /** The traversal of the service: arrays by mapping, objects filled in by a loop. */
  method ClampValue(v: Json, depth: nat) returns (r: Option<Json>)
    ensures r == Clamp(v, depth)
    decreases Levels(depth)
  {
    if depth > MAX_DEPTH { return None; }
    match v {
      case Str(s) => return Some(Str(ClampString(s)));
      case Arr(items) =>
        var slice := Take(items, MAX_ARRAY_ITEMS);
        var out: seq<Json> := [];
        for i := 0 to |slice|
          invariant out == ClampItems(slice[..i], depth + 1)
        {
          assert slice[..i + 1][..i] == slice[..i];
          var clamped := ClampValue(slice[i], depth + 1);
          if clamped.Some? { out := out + [clamped.value]; }
        }
        assert slice[..|slice|] == slice;
        return Some(Arr(out));
      case Obj(entries) =>
        var slice := Take(SafeEntries(entries), MAX_OBJECT_KEYS);
        var out: seq<Entry> := [];
        for i := 0 to |slice|
          invariant out == ClampEntries(slice[..i], depth + 1)
        {
          assert slice[..i + 1][..i] == slice[..i];
          var clamped := ClampValue(slice[i].value, depth + 1);
          if clamped.Some? { out := Assign(out, Take(slice[i].key, MAX_KEY), clamped.value); }
        }
        assert slice[..|slice|] == slice;
        return Some(Obj(out));
      case _ => return Some(v);
    }
  }

  // ---- Bounds -----------------------------------------------------------------

  predicate StringBounded(s: string) {
    |s| <= MAX_STRING || (|s| == MAX_STRING + 1 && s[MAX_STRING] == ELLIPSIS)
  }

  predicate DistinctKeys(entries: seq<Entry>) {
    forall j, k :: 0 <= j < k < |entries| ==> entries[j].key != entries[k].key
  }

  /** Every dimension is within its limit, at this depth and below. */
  ghost predicate Bounded(v: Json, depth: nat)
    decreases Levels(depth)
  {
    depth <= MAX_DEPTH &&
    match v
    case Str(s) => StringBounded(s)
    case Arr(items) => |items| <= MAX_ARRAY_ITEMS && forall k :: 0 <= k < |items| ==> Bounded(items[k], depth + 1)
    case Obj(entries) =>
      && |entries| <= MAX_OBJECT_KEYS && DistinctKeys(entries)
      && (forall k :: 0 <= k < |entries| ==> |entries[k].key| <= MAX_KEY && entries[k].key !in DANGEROUS_KEYS)
      && (forall k :: 0 <= k < |entries| ==> Bounded(entries[k].value, depth + 1))
    case _ => true
  }

  predicate KeysOk(entries: seq<Entry>) {
    && DistinctKeys(entries)
    && forall k :: 0 <= k < |entries| ==> |entries[k].key| <= MAX_KEY && entries[k].key !in DANGEROUS_KEYS
  }

  ghost predicate ValuesBounded(entries: seq<Entry>, depth: nat) {
    forall k :: 0 <= k < |entries| ==> Bounded(entries[k].value, depth)
  }

  lemma {:induction false} SafeEntriesAre(entries: seq<Entry>)
    ensures forall k :: 0 <= k < |SafeEntries(entries)| ==> SafeEntries(entries)[k].key !in DANGEROUS_KEYS
    decreases |entries|
  {
    if entries != [] {
      SafeEntriesAre(entries[..|entries| - 1]);
    }
  }

  lemma {:induction false} AssignKeeps(out: seq<Entry>, key: string, value: Json, depth: nat)
    requires KeysOk(out) && ValuesBounded(out, depth)
    requires |key| <= MAX_KEY && key !in DANGEROUS_KEYS && Bounded(value, depth)
    ensures var now := Assign(out, key, value);
            && KeysOk(now) && ValuesBounded(now, depth) && |out| <= |now| <= |out| + 1
            && forall k :: 0 <= k < |now| ==>
                 now[k].key == key || exists j :: 0 <= j < |out| && out[j].key == now[k].key
    decreases |out|
  {
    hide Bounded;
    if out != [] && out[0].key != key {
      AssignKeeps(out[1..], key, value, depth);
    }
  }

  lemma {:induction false} ItemsBounded(items: seq<Json>, depth: nat)
    ensures |ClampItems(items, depth)| <= |items|
    ensures forall k :: 0 <= k < |ClampItems(items, depth)| ==> Bounded(ClampItems(items, depth)[k], depth)
    decreases Levels(depth), |items| + 1
  {
    if items != [] {
      ItemsBounded(items[..|items| - 1], depth);
      ClampBounded(items[|items| - 1], depth);
    }
  }

  lemma {:induction false} EntriesBounded(entries: seq<Entry>, depth: nat)
    requires forall k :: 0 <= k < |entries| ==> entries[k].key !in DANGEROUS_KEYS
    ensures var out := ClampEntries(entries, depth);
            KeysOk(out) && ValuesBounded(out, depth) && |out| <= |entries|
    decreases Levels(depth), |entries| + 1
  {
    hide Bounded;
    if entries != [] {
      var front, last := entries[..|entries| - 1], entries[|entries| - 1];
      EntriesBounded(front, depth);
      ClampBounded(last.value, depth);
      match Clamp(last.value, depth)
      case None =>
      case Some(v) =>
        // Cutting a key at 100 characters cannot make it a forbidden one.
        assert Take(last.key, MAX_KEY) !in DANGEROUS_KEYS;
        AssignKeeps(ClampEntries(front, depth), Take(last.key, MAX_KEY), v, depth);
    }
  }

  /** What the sanitizer lets through never exceeds a bound, at any depth. */
  lemma {:induction false} ClampBounded(v: Json, depth: nat)
    ensures Clamp(v, depth).Some? <==> depth <= 5
    ensures Clamp(v, depth).Some? ==> Bounded(Clamp(v, depth).value, depth)
    decreases Levels(depth), 0
  {
    if depth <= MAX_DEPTH {
      match v
      case Arr(items) => ItemsBounded(Take(items, MAX_ARRAY_ITEMS), depth + 1);
      case Obj(entries) =>
        SafeEntriesAre(entries);
        EntriesBounded(Take(SafeEntries(entries), MAX_OBJECT_KEYS), depth + 1);
      case _ =>
    }
  }

  // ---- What is within bounds is left alone -----------------------------------

  lemma {:induction false} SafeEntriesStay(entries: seq<Entry>)
    requires forall k :: 0 <= k < |entries| ==> entries[k].key !in DANGEROUS_KEYS
    ensures SafeEntries(entries) == entries
    decreases |entries|
  {
    if entries != [] {
      SafeEntriesStay(entries[..|entries| - 1]);
    }
  }

  lemma {:induction false} AssignNew(out: seq<Entry>, key: string, value: Json)
    requires forall k :: 0 <= k < |out| ==> out[k].key != key
    ensures Assign(out, key, value) == out + [Entry(key, value)]
    decreases |out|
  {
    if out != [] {
      AssignNew(out[1..], key, value);
    }
  }

  lemma {:induction false} ItemsStay(items: seq<Json>, depth: nat)
    requires forall k :: 0 <= k < |items| ==> Bounded(items[k], depth)
    ensures ClampItems(items, depth) == items
    decreases Levels(depth), |items| + 1
  {
    hide Bounded;
    if items != [] {
      ItemsStay(items[..|items| - 1], depth);
      BoundedStays(items[|items| - 1], depth);
    }
  }

  lemma {:induction false} EntriesStay(entries: seq<Entry>, depth: nat)
    requires KeysOk(entries) && ValuesBounded(entries, depth)
    ensures ClampEntries(entries, depth) == entries
    decreases Levels(depth), |entries| + 1
  {
    hide Bounded;
    if entries != [] {
      var front, last := entries[..|entries| - 1], entries[|entries| - 1];
      EntriesStay(front, depth);
      BoundedStays(last.value, depth);
      AssignNew(front, last.key, last.value);
    }
  }

  lemma {:induction false} BoundedStays(v: Json, depth: nat)
    requires Bounded(v, depth)
    ensures Clamp(v, depth) == Some(v)
    decreases Levels(depth), 0
  {
    match v
    case Str(s) =>
      if |s| > MAX_STRING { assert s[..MAX_STRING] + [ELLIPSIS] == s; }
    case Arr(items) => ItemsStay(items, depth + 1);
    case Obj(entries) =>
      SafeEntriesStay(entries);
      EntriesStay(entries, depth + 1);
    case _ =>
  }

  /** A value comes out unchanged exactly when every dimension of it is in bounds. */
  lemma FixedIffBounded(v: Json, depth: nat)
    ensures Clamp(v, depth) == Some(v) <==> Bounded(v, depth)
  {
    ClampBounded(v, depth);
    if Bounded(v, depth) {
      BoundedStays(v, depth);
    }
  }

  /** Clamping again changes nothing, at any depth, for any value: over-long
      strings and keys that fall together when cut included. */
  lemma ClampTwice(v: Json, depth: nat)
    requires depth <= MAX_DEPTH
    ensures Clamp(v, depth).Some? && Clamp(Clamp(v, depth).value, depth) == Clamp(v, depth)
  {
    ClampBounded(v, depth);
    BoundedStays(Clamp(v, depth).value, depth);
  }

  // ---- What survives ----------------------------------------------------------

  lemma {:induction false} ItemsInOrder(items: seq<Json>, depth: nat)
    requires depth <= MAX_DEPTH
    ensures |ClampItems(items, depth)| == |items|
    ensures forall k :: 0 <= k < |items| ==> Some(ClampItems(items, depth)[k]) == Clamp(items[k], depth)
    decreases |items|
  {
    if items != [] {
      var front := items[..|items| - 1];
      ItemsInOrder(front, depth);
      ClampBounded(items[|items| - 1], depth);
    }
  }

  /** A string keeps its first thousand characters, and is marked only when it had
      more; an array keeps its first 25 items, clamped each in its place, and at the
      deepest level none. */
  lemma StringsAndArraysKeepTheirStart(text: string, items: seq<Json>, depth: nat)
    requires depth <= MAX_DEPTH
    ensures var out := Clamp(Str(text), depth).value.text;
            && (|text| <= 1000 ==> out == text)
            && (|text| > 1000 ==> |out| == 1001 && out[..1000] == text[..1000] && out[1000] == ELLIPSIS)
    ensures var out := Clamp(Arr(items), depth).value.items;
            && |out| == (if depth == MAX_DEPTH then 0 else if |items| > 25 then 25 else |items|)
            && forall k :: 0 <= k < |out| ==> Some(out[k]) == Clamp(items[k], depth + 1)
  {
    var slice := Take(items, MAX_ARRAY_ITEMS);
    if depth < MAX_DEPTH {
      ItemsInOrder(slice, depth + 1);
    } else {
      NothingDeeper(slice, [], depth + 1);
    }
  }

  lemma {:induction false} NothingDeeper(items: seq<Json>, entries: seq<Entry>, depth: nat)
    requires depth > MAX_DEPTH
    ensures ClampItems(items, depth) == [] && ClampEntries(entries, depth) == []
    decreases |items|, |entries|
  {
    if items != [] {
      NothingDeeper(items[..|items| - 1], entries, depth);
    } else if entries != [] {
      NothingDeeper(items, entries[..|entries| - 1], depth);
    }
  }

  function Lookup(entries: seq<Entry>, key: string): Option<Json>
    decreases |entries|
  {
    if entries == [] then None
    else if entries[0].key == key then Some(entries[0].value) else Lookup(entries[1..], key)
  }

  /** The clamped value of the last entry whose key is `key` once cut to a hundred
      characters. */
  function LastFor(entries: seq<Entry>, key: string, depth: nat): Option<Json>
    decreases |entries|
  {
    if entries == [] then None
    else
      var last := entries[|entries| - 1];
      if Take(last.key, 100) == key then Clamp(last.value, depth) else LastFor(entries[..|entries| - 1], key, depth)
  }

  lemma {:induction false} AssignedThenRead(out: seq<Entry>, key: string, value: Json, k: string)
    ensures Lookup(Assign(out, key, value), k) == if k == key then Some(value) else Lookup(out, k)
    decreases |out|
  {
    if out != [] {
      AssignedThenRead(out[1..], key, value, k);
    }
  }

  lemma {:induction false} LastEntryWins(entries: seq<Entry>, depth: nat, key: string)
    requires depth <= MAX_DEPTH
    ensures Lookup(ClampEntries(entries, depth), key) == LastFor(entries, key, depth)
    decreases |entries|
  {
    if entries != [] {
      var front, last := entries[..|entries| - 1], entries[|entries| - 1];
      LastEntryWins(front, depth, key);
      ClampBounded(last.value, depth);
      AssignedThenRead(ClampEntries(front, depth), Take(last.key, MAX_KEY), Clamp(last.value, depth).value, key);
    }
  }

  /** An object keeps, of its first 40 permitted entries, under every key cut to 100
      characters, the clamped value of the last entry that is cut to it. */
  lemma ObjectsKeepTheLast(entries: seq<Entry>, depth: nat, key: string)
    requires depth < MAX_DEPTH
    ensures var kept := Take(SafeEntries(entries), 40);
            Lookup(Clamp(Obj(entries), depth).value.entries, key) == LastFor(kept, key, depth + 1)
  {
    LastEntryWins(Take(SafeEntries(entries), 40), depth + 1, key);
  }

  /** A property assigned again keeps its place among the others. */
  lemma {:induction false} AssignInPlace(out: seq<Entry>, k: nat, value: Json)
    requires k < |out| && forall j :: 0 <= j < k ==> out[j].key != out[k].key
    ensures Assign(out, out[k].key, value) == out[k := Entry(out[k].key, value)]
    decreases |out|
  {
    if k > 0 {
      AssignInPlace(out[1..], k - 1, value);
      assert out[k := Entry(out[k].key, value)] == [out[0]] + out[1..][k - 1 := Entry(out[k].key, value)];
    } else {
      assert out[0 := Entry(out[0].key, value)] == [Entry(out[0].key, value)] + out[1..];
    }
  }

  lemma {:induction false} SafeEntriesSplit(a: seq<Entry>, b: seq<Entry>)
    ensures SafeEntries(a + b) == SafeEntries(a) + SafeEntries(b)
    decreases |b|
  {
    if b == [] {
      assert a + b == a;
    } else {
      var front := b[..|b| - 1];
      SafeEntriesSplit(a, front);
      assert (a + b)[..|a + b| - 1] == a + front;
    }
  }

  /** A forbidden key is invisible wherever it stands: it does not even use up one
      of the forty entries. */
  lemma ForbiddenKeysAreInvisible(a: seq<Entry>, e: Entry, b: seq<Entry>, depth: nat)
    requires e.key in DANGEROUS_KEYS
    ensures Clamp(Obj(a + [e] + b), depth) == Clamp(Obj(a + b), depth)
  {
    SafeEntriesSplit(a + [e], b);
    SafeEntriesSplit(a, [e]);
    SafeEntriesSplit(a, b);
    assert [e][..0] == [];
    assert SafeEntries([e]) == [];
  }

  /** Nesting, counted from the value itself. */
  function Height(v: Json): nat {
    match v
    case Arr(items) => 1 + MaxHeight(items)
    case Obj(entries) => 1 + MaxEntryHeight(entries)
    case _ => 1
  }

  function MaxHeight(items: seq<Json>): nat {
    if items == [] then 0
    else
      var h, rest := Height(items[0]), MaxHeight(items[1..]);
      if h > rest then h else rest
  }

  function MaxEntryHeight(entries: seq<Entry>): nat {
    if entries == [] then 0
    else
      var h, rest := Height(entries[0].value), MaxEntryHeight(entries[1..]);
      if h > rest then h else rest
  }

  lemma {:induction false} ItemsFlat(items: seq<Json>, depth: nat)
    requires forall k :: 0 <= k < |items| ==> Bounded(items[k], depth)
    ensures items == [] || MaxHeight(items) <= Levels(depth)
    decreases Levels(depth), |items| + 1
  {
    if items != [] {
      BoundedIsFlat(items[0], depth);
      ItemsFlat(items[1..], depth);
    }
  }

  lemma {:induction false} EntriesFlat(entries: seq<Entry>, depth: nat)
    requires ValuesBounded(entries, depth)
    ensures entries == [] || MaxEntryHeight(entries) <= Levels(depth)
    decreases Levels(depth), |entries| + 1
  {
    if entries != [] {
      BoundedIsFlat(entries[0].value, depth);
      EntriesFlat(entries[1..], depth);
    }
  }

  /** A bounded context is at most six levels deep. */
  lemma {:induction false} BoundedIsFlat(v: Json, depth: nat)
    requires Bounded(v, depth)
    ensures depth + Height(v) <= 6
    decreases Levels(depth), 0
  {
    match v
    case Arr(items) => ItemsFlat(items, depth + 1);
    case Obj(entries) => EntriesFlat(entries, depth + 1);
    case _ =>
  }

  // ---- The whole context ------------------------------------------------------

  /** `parsed` is what parsing the raw text gave, if it parsed at all; `size` is the
      size in bytes of a value written out as JSON. */
  method SanitizeContext(parsed: Option<Json>, size: Json -> nat) returns (r: Option<Json>)
    ensures r == Sanitized(parsed, size)
  {
    if parsed.None? { return None; }
    if !parsed.value.Obj? { return None; }
    var clamped := ClampValue(parsed.value, 0);
    match clamped {
      case None => return None;
      case Some(c) =>
        if c.Obj? && |c.entries| == 0 { return None; }
        if size(c) > MAX_TOTAL_BYTES { return None; }
        return Some(c);
    }
  }

  function Sanitized(parsed: Option<Json>, size: Json -> nat): Option<Json> {
    match parsed
    case Some(Obj(entries)) =>
      var c := Clamp(Obj(entries), 0).value;
      if c.entries == [] || size(c) > MAX_TOTAL_BYTES then None else Some(c)
    case _ => None
  }

  /** What may be stored is exactly what the sanitizer leaves alone: a non-empty
      object within every bound. Everything it returns is of that kind, and so is
      returned unchanged when it is sanitized again. */
  lemma StoredContexts(parsed: Option<Json>, size: Json -> nat, v: Json)
    ensures Sanitized(Some(v), size) == Some(v) <==>
            v.Obj? && v.entries != [] && Bounded(v, 0) && size(v) <= MAX_TOTAL_BYTES
    ensures Sanitized(parsed, size) == Some(v) ==> Sanitized(Some(v), size) == Some(v)
  {
    FixedIffBounded(v, 0);
    if Sanitized(parsed, size) == Some(v) {
      ClampTwice(parsed.value, 0);
    }
  }

  predicate Forbidden(key: string) { key == "__proto__" || key == "constructor" || key == "prototype" }

  lemma {:induction false} NothingPermittedIff(entries: seq<Entry>)
    ensures SafeEntries(entries) == [] <==> forall k :: 0 <= k < |entries| ==> Forbidden(entries[k].key)
    decreases |entries|
  {
    if entries != [] {
      NothingPermittedIff(entries[..|entries| - 1]);
      assert entries == entries[..|entries| - 1] + [entries[|entries| - 1]];
    }
  }

  lemma SomethingIsKept(entries: seq<Entry>)
    requires entries != []
    ensures ClampEntries(entries, 1) != []
  {
    var last := entries[|entries| - 1];
    LastEntryWins(entries, 1, Take(last.key, 100));
    ClampBounded(last.value, 1);
    hide Clamp, ClampEntries;
  }

  lemma ClampedIsEmptyIff(entries: seq<Entry>)
    ensures Clamp(Obj(entries), 0).Some? && Clamp(Obj(entries), 0).value.Obj?
    ensures Clamp(Obj(entries), 0).value.entries == [] <==> forall k :: 0 <= k < |entries| ==> Forbidden(entries[k].key)
  {
    NothingPermittedIff(entries);
    if SafeEntries(entries) != [] {
      SomethingIsKept(Take(SafeEntries(entries), 40));
    }
    hide SafeEntries;
  }

  /** A context is stored unless it did not parse, is no object, has no entry that is
      permitted, or is too large once clamped. Needing to be clamped is no reason to
      refuse it. */
  lemma ContextsAreKept(parsed: Option<Json>, size: Json -> nat)
    ensures Sanitized(parsed, size).None?
       <==> || parsed.None? || !parsed.value.Obj?
            || (forall k :: 0 <= k < |parsed.value.entries| ==> Forbidden(parsed.value.entries[k].key))
            || size(Clamp(parsed.value, 0).value) > 65536
  {
    if parsed.Some? && parsed.value.Obj? {
      ClampedIsEmptyIff(parsed.value.entries);
      hide Clamp, Forbidden;
    }
  }

  /** What is stored holds, under every key, what the first forty permitted entries
      say of it. */
  lemma StoredContextsHold(entries: seq<Entry>, size: Json -> nat, v: Json, key: string)
    requires Sanitized(Some(Obj(entries)), size) == Some(v)
    ensures v.Obj? && Lookup(v.entries, key) == LastFor(Take(SafeEntries(entries), 40), key, 1)
  {
    ObjectsKeepTheLast(entries, 0, key);
  }
}
