/**
 The cached Orchard spending key of a PCZT session (src/parser/pczt.rs) and the
 app-wide derivation budget (src/zip32.rs).
 */
module KeyCache {
  import opened Outcomes
  import opened Paths

  const MAX_ORCHARD_DERIVATIONS := 50
  const U32_MAX := 0xFFFF_FFFF

  type Key = nat
  datatype Error = BadState | TechnicalProblem | NotEnoughMemorySpace

  // What the secure element did, in order. Derived(cached, ...) is one call of the
  // derivation syscall, `cached` telling whether the key cache asked for it.
  datatype Event = Derived(cached: bool, path: Path, ok: bool) | Served(path: Path, key: Key) | Cleared

  // The static counter of the app, and the log of the secure element.
  class SecureElement {
    var spent: nat
    var log: seq<Event>
    const keyOf: Path -> Key

    ghost predicate Valid()
      reads this
    {
      spent <= U32_MAX && Syscalls(log) == if spent < 50 then spent else 50
    }

    constructor (keyOf: Path -> Key)
      ensures Valid() && log == [] && this.keyOf == keyOf
    {
      this.keyOf := keyOf;
      spent, log := 0, [];
    }

    // consume_orchard_derivation_budget: counts with saturation, refuses past fifty.
    method ConsumeBudget() returns (r: Result<(), Error>)
      requires Valid()
      modifies this`spent
      ensures r.Err? ==> Valid()
      ensures r.Ok? <==> old(spent) < 50
      ensures r.Ok? ==> Syscalls(log) == spent - 1
      ensures spent == if old(spent) == U32_MAX then U32_MAX else old(spent) + 1
      ensures r.Err? ==> r.error == NotEnoughMemorySpace
    {
      spent := if spent == U32_MAX then U32_MAX else spent + 1;
      if spent > MAX_ORCHARD_DERIVATIONS {
        return Err(NotEnoughMemorySpace);
      }
      r := Ok(());
    }

    // derive_orchard_sk_bytes, the only derivation site. `answers` tells whether the
    // syscall succeeds this time.
    method Derive(path: Path, cached: bool, answers: bool) returns (r: Result<Key, Error>)
      requires Valid()
      modifies this`spent, this`log
      ensures Valid()
      ensures r.Ok? <==> Syscalls(old(log)) < 50 && answers
      ensures r.Ok? ==> r.value == keyOf(path)
      ensures log == if Syscalls(old(log)) < 50 then old(log) + [Derived(cached, path, answers)] else old(log)
    {
      var budget := ConsumeBudget();
      if budget.Err? {
        return Err(budget.error);
      }
      var event := Derived(cached, path, answers);
      assert (log + [event])[..|log|] == log;
      log := log + [event];
      if !answers {
        return Err(TechnicalProblem);
      }
      r := Ok(keyOf(path));
    }
  }

  class Cache {
    var key: Option<Key>
    var path: Option<Path>

    constructor ()
      ensures key == None && path == None
    {
      key, path := None, None;
    }

    ghost predicate Valid(keyOf: Path -> Key)
      reads this
    {
      if path.Some? then key == Some(keyOf(path.value)) else key == None
    }

    // orchard_spending_key.
    method SpendingKey(se: SecureElement, p: Path, answers: bool) returns (r: Result<Key, Error>)
      requires se.Valid() && Valid(se.keyOf)
      modifies this, se`spent, se`log
      ensures se.Valid() && Valid(se.keyOf)
      ensures r.Ok? ==> r.value == se.keyOf(p) && path == Some(p)
      ensures r.Err? ==> path == old(path)
      ensures old(path).Some? ==> path == old(path) && se.log == old(se.log) && (r.Ok? <==> old(path) == Some(p))
      ensures old(path).None? ==>
                && (r.Ok? <==> Syscalls(old(se.log)) < 50 && answers)
                && se.log == (if Syscalls(old(se.log)) < 50 then old(se.log) + [Derived(true, p, answers)]
                              else old(se.log))
    {
      if path.Some? {
        if path.value != p {
          return Err(BadState);
        }
      } else {
        var derived := se.Derive(p, true, answers);
        if derived.Err? {
          return Err(derived.error);
        }
        key := Some(derived.value);
        path := Some(p);
      }
      r := Ok(key.value);
    }

    // clear_orchard_spending_key, also what a parser reset does to the cache.
    method Clear()
      modifies this
      ensures key == None && path == None
    {
      key, path := None, None;
    }
  }

  // ---------------------------------------------------------------- runs

  datatype Op =
    | Lookup(path: Path, answers: bool)  // a cached spending-key lookup
    | Direct(path: Path, answers: bool)  // a derivation by any other caller
    | Clear                              // clear or parser reset

  function Syscalls(log: seq<Event>): nat {
    if log == [] then 0
    else Syscalls(log[..|log| - 1]) + if log[|log| - 1].Derived? then 1 else 0
  }

  // The path of the key held since the last clear, if a cached derivation succeeded.
  function Held(log: seq<Event>): Option<Path> {
    if log == [] then None
    else
      var last := log[|log| - 1];
      match last
      case Derived(cached, p, ok) => if cached && ok then Some(p) else Held(log[..|log| - 1])
      case Served(_, _) => Held(log[..|log| - 1])
      case Cleared => None
  }

  /**
   Every prefix of the log obeys: a cached derivation only starts while no key is held,
   and a served key is the direct derivation for the requested path, which is the path
   held.
   */
  ghost predicate Disciplined(log: seq<Event>, keyOf: Path -> Key) {
    forall i :: 0 <= i < |log| ==>
      match log[i]
      case Derived(cached, _, _) => cached ==> Held(log[..i]) == None
      case Served(p, k) => k == keyOf(p) && Held(log[..i]) == Some(p)
      case Cleared => true
  }

  lemma DisciplinedSnoc(log: seq<Event>, keyOf: Path -> Key, e: Event)
    requires Disciplined(log, keyOf)
    requires match e
             case Derived(cached, _, _) => cached ==> Held(log) == None
             case Served(p, k) => k == keyOf(p) && Held(log) == Some(p)
             case Cleared => true
    ensures Disciplined(log + [e], keyOf)
    ensures Held(log + [e]) == match e
                               case Derived(cached, p, ok) => if cached && ok then Some(p) else Held(log)
                               case Served(_, _) => Held(log)
                               case Cleared => None
    ensures Syscalls(log + [e]) == Syscalls(log) + if e.Derived? then 1 else 0
  {
    var l := log + [e];
    assert l[..|log|] == log;
    forall i | 0 <= i < |l| ensures l[..i] == log[..i] || i == |log| {}
  }

  ghost predicate Consistent(se: SecureElement, cache: Cache)
    reads se, cache
  {
    se.Valid() && cache.Valid(se.keyOf) && Disciplined(se.log, se.keyOf) && Held(se.log) == cache.path
  }

  /**
   What an operation adds to the log, by the log so far: a lookup serves the key held for its
   path, or derives it while no key is held; the first fifty derivations go through.
   */
  function OpEvents(keyOf: Path -> Key, op: Op, log: seq<Event>): seq<Event> {
    match op
    case Lookup(p, answers) =>
      if Held(log).Some? then if Held(log).value == p then [Served(p, keyOf(p))] else []
      else if Syscalls(log) >= 50 then []
      else [Derived(true, p, answers)] + if answers then [Served(p, keyOf(p))] else []
    case Direct(p, answers) => if Syscalls(log) >= 50 then [] else [Derived(false, p, answers)]
    case Clear => [Cleared]
  }

  // The log after the first k operations.
  function LogOf(keyOf: Path -> Key, ops: seq<Op>, k: nat): seq<Event>
    requires k <= |ops|
  {
    if k == 0 then [] else var before := LogOf(keyOf, ops, k - 1); before + OpEvents(keyOf, ops[k - 1], before)
  }

  // The log of a lookup from what the cache answered.
  lemma LookupLogs(keyOf: Path -> Key, p: Path, answers: bool, before: seq<Event>, mid: seq<Event>, ok: bool)
    requires if Held(before).Some? then mid == before && (ok <==> Held(before) == Some(p))
             else && (ok <==> Syscalls(before) < 50 && answers)
                  && mid == if Syscalls(before) < 50 then before + [Derived(true, p, answers)] else before
    ensures before + OpEvents(keyOf, Lookup(p, answers), before) == if ok then mid + [Served(p, keyOf(p))] else mid
  {}

  method LookupOp(se: SecureElement, cache: Cache, p: Path, answers: bool)
    requires Consistent(se, cache)
    modifies se, cache
    ensures Consistent(se, cache)
    ensures se.log == old(se.log) + OpEvents(se.keyOf, Lookup(p, answers), old(se.log))
  {
    ghost var before := se.log;
    var r := cache.SpendingKey(se, p, answers);
    LookupLogs(se.keyOf, p, answers, before, se.log, r.Ok?);
    if se.log != before {
      DisciplinedSnoc(before, se.keyOf, Derived(true, p, answers));
    }
    if r.Ok? {
      DisciplinedSnoc(se.log, se.keyOf, Served(p, r.value));
      se.log := se.log + [Served(p, r.value)];
    }
  }

  method DirectOp(se: SecureElement, cache: Cache, p: Path, answers: bool)
    requires Consistent(se, cache)
    modifies se`spent, se`log
    ensures Consistent(se, cache)
    ensures se.log == old(se.log) + OpEvents(se.keyOf, Direct(p, answers), old(se.log))
  {
    ghost var before := se.log;
    var r := se.Derive(p, false, answers);
    if se.log != before {
      DisciplinedSnoc(before, se.keyOf, Derived(false, p, answers));
    }
  }

  method ClearOp(se: SecureElement, cache: Cache)
    requires Consistent(se, cache)
    modifies se`log, cache
    ensures Consistent(se, cache)
    ensures se.log == old(se.log) + [Cleared]
  {
    cache.Clear();
    DisciplinedSnoc(se.log, se.keyOf, Cleared);
    se.log := se.log + [Cleared];
  }

  method Perform(se: SecureElement, cache: Cache, op: Op)
    requires Consistent(se, cache)
    modifies se, cache
    ensures Consistent(se, cache) && se.log == old(se.log) + OpEvents(se.keyOf, op, old(se.log))
  {
    match op {
      case Lookup(p, answers) => LookupOp(se, cache, p, answers);
      case Direct(p, answers) => DirectOp(se, cache, p, answers);
      case Clear => ClearOp(se, cache);
    }
  }

  lemma LogOfNext(keyOf: Path -> Key, ops: seq<Op>, k: nat)
    requires k < |ops|
    ensures LogOf(keyOf, ops, k + 1) == LogOf(keyOf, ops, k) + OpEvents(keyOf, ops[k], LogOf(keyOf, ops, k))
  {}

  /**
   Any interleaving of lookups, other derivations, clears and resets over one run of the app:
   the cache and the saturating counter do what the log so far calls for.
   */
  method Run(keyOf: Path -> Key, ops: seq<Op>) returns (log: seq<Event>)
    ensures log == LogOf(keyOf, ops, |ops|)
    ensures Disciplined(log, keyOf)
    ensures Syscalls(log) <= 50
  {
    var se := new SecureElement(keyOf);
    var cache := new Cache();
    for i := 0 to |ops|
      invariant fresh(se) && fresh(cache) && se.keyOf == keyOf && Consistent(se, cache)
      invariant se.log == LogOf(keyOf, ops, i)
    {
      Perform(se, cache, ops[i]);
      LogOfNext(keyOf, ops, i);
    }
    log := se.log;
  }

  // A successful derivation for the cache.
  predicate IsCachedKey(e: Event) { e.Derived? && e.cached && e.ok }

  /** Between two successful cached derivations there is a clear. */
  lemma OneDerivationBetweenClears(log: seq<Event>, keyOf: Path -> Key, i: nat, j: nat)
    requires Disciplined(log, keyOf) && i < j < |log| && IsCachedKey(log[i]) && IsCachedKey(log[j])
    ensures exists k :: i < k < j && log[k] == Cleared
  {
    if forall k :: i < k < j ==> log[k] != Cleared {
      KeepsHolding(log, keyOf, i, j);
    }
  }

  lemma {:induction false} KeepsHolding(log: seq<Event>, keyOf: Path -> Key, i: nat, j: nat)
    requires Disciplined(log, keyOf) && i < j <= |log| && IsCachedKey(log[i])
    requires forall k :: i < k < j ==> log[k] != Cleared
    ensures Held(log[..j]).Some?
  {
    assert log[..j][..j - 1] == log[..j - 1];
    if j > i + 1 { KeepsHolding(log, keyOf, i, j - 1); }
  }
}
