/** The hand-rolled reactive store and its persistence wrapper (src/lib/zustand.ts).

    `create` keeps the state and the listener set in closure variables; here they are the
    fields of `Store`. A listener is known by its identity only: calling it is recorded in
    `delivered`, the log of every `(listener, new state, previous state)` call made so far.
    `persist` reads the stored copy once at creation and replaces `api.setState` by a
    version that writes the whole state back after every update; the `set` that the state
    creator received before that replacement (`SetState` below) keeps writing nothing. */
module Zustand {
  import opened Common

  /** A JavaScript value held in a state record. `Fn` is a function-valued field (a store
      action), which `JSON.stringify` drops. */
  datatype Value =
    | Null
    | Bool(b: bool)
    | Num(n: real)
    | Str(s: string)
    | Arr(items: seq<Value>)
    | Obj(fields: map<string, Value>)
    | Fn(name: string)

  /** A state record: its own enumerable fields. */
  type State = map<string, Value>

  /** The argument of `setState`: a partial record, or a function of the current state
      returning one. */
  datatype Update = Partial(fields: State) | Updater(apply: State -> State)

  /** The partial record an update merges onto state `s` (line 24). */
  function PartialOf(u: Update, s: State): (p: State)
    ensures u.Partial? ==> p == u.fields
    ensures u.Updater? ==> p == u.apply(s)
  {
    match u
    case Partial(p) => p
    case Updater(f) => f(s)
  }

  /** `{ ...s, ...p }`: the partial's fields win, every other field keeps its value. */
  function Merge(s: State, p: State): (r: State)
    ensures r.Keys == s.Keys + p.Keys
    ensures forall k :: k in p ==> r[k] == p[k]
    ensures forall k :: k in s && k !in p ==> r[k] == s[k]
  {
    s + p
  }

  /** A listener's identity (JavaScript compares the closures by reference). */
  type Listener = nat

  datatype Notification = Notification(listener: Listener, next: State, prev: State)

  /** The calls `listeners.forEach(l => l(next, prev))` makes, in the set's insertion order. */
  function Calls(ls: seq<Listener>, next: State, prev: State): (r: seq<Notification>)
    ensures |r| == |ls|
    ensures forall j :: 0 <= j < |r| ==> r[j] == Notification(ls[j], next, prev)
  {
    if ls == [] then [] else Calls(ls[..|ls| - 1], next, prev) + [Notification(ls[|ls| - 1], next, prev)]
  }

  /** One `setState` calls every registered listener exactly once, with the new and the
      previous state, and calls nobody else. */
  lemma {:induction false} CallsOnce(ls: seq<Listener>, next: State, prev: State)
    requires Distinct(ls)
    ensures forall l :: l in ls ==> multiset(Calls(ls, next, prev))[Notification(l, next, prev)] == 1
    ensures forall c :: c in Calls(ls, next, prev) ==> c.listener in ls && c.next == next && c.prev == prev
  {
    if ls != [] {
      var init, last := ls[..|ls| - 1], ls[|ls| - 1];
      assert Distinct(init);
      CallsOnce(init, next, prev);
      assert ls == init + [last];
      assert last !in init;
      var rest := Calls(init, next, prev);
      assert multiset(rest)[Notification(last, next, prev)] == 0 by {
        if Notification(last, next, prev) in rest {
          assert false;
        }
      }
    }
  }

  /** A JavaScript `Set` of listeners is `Distinct`; deleting one keeps it so. */
  lemma {:induction false} FilterKeepsDistinct(s: seq<Listener>, p: Listener -> bool)
    requires Distinct(s)
    ensures Distinct(Filter(s, p))
  {
    if s != [] {
      FilterKeepsDistinct(s[1..], p);
      assert s[0] !in s[1..];
      assert s[0] !in Filter(s[1..], p);
    }
  }

  function Other(l: Listener): Listener -> bool {
    x => x != l
  }

  // ---------------------------------------------------------------------------
  // Storage and JSON
  // ---------------------------------------------------------------------------

  /** A synchronous key-value storage medium (`localStorage`). */
  class Storage {
    var items: map<string, string>

    constructor (items: map<string, string>)
      ensures this.items == items
    {
      this.items := items;
    }

    /** `getItem`: the stored string, or `null`. */
    function GetItem(key: string): (r: Option<string>)
      reads this
      ensures r.Some? <==> key in items
      ensures r.Some? ==> r.value == items[key]
    {
      if key in items then Some(items[key]) else None
    }

    method SetItem(key: string, value: string)
      modifies this
      ensures items == old(items)[key := value]
    {
      items := items[key := value];
    }
  }

  /** `JSON.parse` (None where it throws) and `JSON.stringify`, as given functions. */
  datatype Json = Json(parse: string -> Option<Value>, stringify: Value -> string)

  /** The fields of a state record that survive `JSON.stringify`: functions are dropped. */
  function Persistable(s: State): (r: State)
    ensures r.Keys <= s.Keys
    ensures forall k :: k in r ==> r[k] == s[k] && !s[k].Fn?
    ensures forall k :: k in s && !s[k].Fn? ==> k in r
  {
    map k | k in s && !s[k].Fn? :: s[k]
  }

  /** The fields that `{ ...initialState, ...parsed }` takes from a parsed value: an object's
      own fields; `null`, numbers and booleans contribute none. */
  function Spread(v: Value): (r: State)
    ensures v.Obj? ==> r == v.fields
    ensures !v.Obj? ==> r == map[]
  {
    if v.Obj? then v.fields else map[]
  }

  /** The state `persist` starts from (lines 73-83): with a non-empty stored string that
      parses, the stored fields override the creator's; otherwise the creator's state. */
  function Restore(initial: State, stored: Option<string>, parse: string -> Option<Value>): (r: State)
    ensures stored.None? || stored == Some("") ==> r == initial
    ensures stored.Some? && stored.value != "" && parse(stored.value).None? ==> r == initial
    ensures stored.Some? && stored.value != "" && parse(stored.value).Some? && parse(stored.value).value.Obj? ==>
              var stored := parse(stored.value).value.fields;
              r.Keys == initial.Keys + stored.Keys &&
              (forall k :: k in stored ==> r[k] == stored[k]) &&
              (forall k :: k in initial && k !in stored ==> r[k] == initial[k])
    ensures stored.Some? && stored.value != "" && parse(stored.value).Some? && !parse(stored.value).value.Obj? ==>
              r == initial
  {
    match stored
    case None => initial
    case Some(text) =>
      if text == "" then initial
      else match parse(text)
        case None => initial
        case Some(v) => Merge(initial, Spread(v))
  }

  /** Reloading: a new store created under the same name, against the storage that a
      persisted store last wrote state `s` to, starts from `s`'s serializable fields merged
      over the new creator's state; the creator's actions that `s` could not carry survive. */
  lemma ReloadRestoresWrittenState(initial: State, s: State, items: map<string, string>, name: string, json: Json)
    requires json.parse(json.stringify(Obj(s))) == Some(Obj(Persistable(s)))
    requires json.stringify(Obj(s)) != ""
    ensures var restored := Restore(initial, Some(items[name := json.stringify(Obj(s))][name]), json.parse);
            restored == Merge(initial, Persistable(s)) &&
            forall k :: k in initial && (k !in s || s[k].Fn?) ==> restored[k] == initial[k]
  {
  }

  // ---------------------------------------------------------------------------
  // The store
  // ---------------------------------------------------------------------------

  class Store {
    var state: State
    /** The listener `Set`, in insertion order. */
    var listeners: seq<Listener>
    /** Every listener call made so far, in order. */
    var delivered: seq<Notification>
    /** The key `api.setState` writes under, once `persist` has replaced it. */
    const persistName: Option<string>
    const storage: Storage?
    const json: Json

    ghost predicate Valid()
      reads this
    {
      Distinct(listeners) && (persistName.Some? ==> storage != null)
    }

    /** `create(creator)`: the creator's result is the first state; no listener yet. */
    constructor Create(initial: State, json: Json)
      ensures Valid()
      ensures state == initial && listeners == [] && delivered == []
      ensures persistName == None && storage == null && this.json == json
    {
      state := initial;
      listeners := [];
      delivered := [];
      persistName := None;
      storage := null;
      this.json := json;
    }

    /** `create(persist(creator, { name, storage }))`: the stored copy, when there is one and
        it parses, is merged over the creator's state, and `api.setState` now writes. */
    constructor CreatePersisted(initial: State, name: string, storage: Storage, json: Json)
      ensures Valid()
      ensures state == Restore(initial, storage.GetItem(name), json.parse)
      ensures listeners == [] && delivered == []
      ensures persistName == Some(name) && this.storage == storage && this.json == json
    {
      state := Restore(initial, storage.GetItem(name), json.parse);
      listeners := [];
      delivered := [];
      persistName := Some(name);
      this.storage := storage;
      this.json := json;
    }

    /** `getState` (line 29): the current state. */
    function GetState(): (s: State)
      reads this
      ensures s == state
    {
      state
    }

    /** The `setState` closure, which the creator receives as `set` (lines 22-27): merge the
        partial, or the updater's result on the state as it was, then call every listener
        once with the new and the previous state. It writes no storage. */
    method SetState(u: Update)
      requires Valid()
      modifies this`state, this`delivered
      ensures Valid()
      ensures state == Merge(old(state), PartialOf(u, old(state)))
      ensures delivered == old(delivered) + Calls(listeners, state, old(state))
    {
      var prev := state;
      var partial := PartialOf(u, state);
      state := Merge(state, partial);
      var i := 0;
      while i < |listeners|
        invariant 0 <= i <= |listeners|
        invariant state == Merge(prev, partial)
        invariant delivered == old(delivered) + Calls(listeners[..i], state, prev)
      {
        assert listeners[..i + 1][..i] == listeners[..i];
        delivered := delivered + [Notification(listeners[i], state, prev)];
        i := i + 1;
      }
      assert listeners[..i] == listeners;
    }

    /** `api.setState`: the update above, then, when `persist` replaced it (lines 86-91),
        the whole resulting state is written under the store's name. */
    method ApiSetState(u: Update)
      requires Valid()
      modifies this`state, this`delivered, storage
      ensures Valid()
      ensures state == Merge(old(state), PartialOf(u, old(state)))
      ensures delivered == old(delivered) + Calls(listeners, state, old(state))
      ensures persistName.Some? ==> storage.items == old(storage.items)[persistName.value := json.stringify(Obj(state))]
      ensures persistName.None? && storage != null ==> storage.items == old(storage.items)
    {
      SetState(u);
      if persistName.Some? {
        storage.SetItem(persistName.value, json.stringify(Obj(state)));
      }
    }

    /** `subscribe`: adding a listener already in the set changes nothing. */
    method Subscribe(l: Listener)
      requires Valid()
      modifies this`listeners
      ensures Valid()
      ensures listeners == if l in old(listeners) then old(listeners) else old(listeners) + [l]
    {
      if l !in listeners {
        listeners := listeners + [l];
      }
    }

    /** The function `subscribe` returns: `listeners.delete(l)`. */
    method Unsubscribe(l: Listener)
      requires Valid()
      modifies this`listeners
      ensures Valid()
      ensures listeners == Filter(old(listeners), Other(l))
      ensures forall x :: x in listeners <==> x in old(listeners) && x != l
    {
      FilterKeepsDistinct(listeners, Other(l));
      listeners := Filter(listeners, Other(l));
    }

    /** `destroy`: `listeners.clear()`. */
    method Destroy()
      requires Valid()
      modifies this`listeners
      ensures Valid()
      ensures listeners == []
    {
      listeners := [];
    }
  }

  /** A listener subscribed to a fresh store is called exactly once by `setState({ x: v })`,
      with a new state holding `x: v`; an identity update `setState(s => s)` still calls it. */
  method SubscribeThenSet(initial: State, json: Json, l: Listener, x: string, v: Value)
    returns (first: State, calls: seq<Notification>)
    ensures x in first && first[x] == v
    ensures calls == [Notification(l, first, initial), Notification(l, first, first)]
  {
    var store := new Store.Create(initial, json);
    store.Subscribe(l);
    assert store.listeners == [l];
    store.SetState(Partial(map[x := v]));
    first := store.state;
    assert first == Merge(initial, map[x := v]);
    assert store.delivered == [Notification(l, first, initial)];
    store.SetState(Updater(s => s));
    assert store.state == Merge(first, first) == first;
    calls := store.delivered;
  }
}
