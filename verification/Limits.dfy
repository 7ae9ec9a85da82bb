/** Concurrency slots and body-size limits (internal/limits/manager.go). */
module Limits {
  datatype LimitConfig = LimitConfig(maxConcurrentRequests: int, maxRequestBodyBytes: int)

  /** A counting semaphore as a value: a buffered channel's capacity and fill. */
  datatype Slots = Slots(capacity: nat, taken: nat)

  // ---- what the manager's operations do to the table of semaphores ---------------------------

  predicate CanAcquire(table: map<string, Slots>, key: string) {
    key in table ==> table[key].taken < table[key].capacity
  }

  /** The table after a `TryAcquire`, whether or not it got a slot. */
  function AfterAcquire(table: map<string, Slots>, key: string): map<string, Slots> {
    if key in table && table[key].taken < table[key].capacity
    then table[key := Slots(table[key].capacity, table[key].taken + 1)]
    else table
  }

  /** A release receives from the channel, so it blocks on an empty one. */
  predicate Blocks(table: map<string, Slots>, key: string) {
    key in table && table[key].taken == 0
  }

  function AfterRelease(table: map<string, Slots>, key: string): map<string, Slots> {
    if key in table && table[key].taken > 0
    then table[key := Slots(table[key].capacity, table[key].taken - 1)]
    else table
  }

  /** A zero limit, like a missing one, means no limit; a negative one refuses every body. */
  predicate SizeAllowed(limits: map<string, LimitConfig>, key: string, size: int) {
    key in limits && limits[key].maxRequestBodyBytes != 0 ==> size <= limits[key].maxRequestBodyBytes
  }

  /** Between a successful acquire and its release the table is back where it was. */
  lemma ReleaseUndoesAcquire(table: map<string, Slots>, key: string)
    requires CanAcquire(table, key)
    ensures !Blocks(AfterAcquire(table, key), key)
    ensures AfterRelease(AfterAcquire(table, key), key) == table
  {
    assert key in table ==> table[key := table[key]] == table;
  }

  // ---- the classes ---------------------------------------------------------------------------

  class Semaphore {
    const capacity: nat
    var taken: nat

    ghost predicate Valid()
      reads this
    {
      taken <= capacity
    }

    constructor (capacity: nat)
      ensures Valid() && this.capacity == capacity && taken == 0
    {
      this.capacity := capacity;
      taken := 0;
    }

    method TryAcquire() returns (ok: bool)
      requires Valid()
      modifies this
      ensures Valid()
      ensures ok <==> old(taken) < capacity
      ensures taken == old(taken) + if ok then 1 else 0
    {
      if taken < capacity {
        taken := taken + 1;
        return true;
      }
      return false;
    }

    /** On an empty channel the caller blocks and nothing changes. */
    method Release() returns (blocked: bool)
      requires Valid()
      modifies this
      ensures Valid()
      ensures blocked <==> old(taken) == 0
      ensures old(taken) == taken + if blocked then 0 else 1
    {
      if taken == 0 {
        return true;
      }
      taken := taken - 1;
      return false;
    }
  }

  class Manager {
    var semaphores: map<string, Semaphore>
    var config: map<string, LimitConfig>
    ghost var Repr: set<Semaphore>

    ghost predicate Valid()
      reads this, Repr
    {
      && (forall k :: k in semaphores ==> semaphores[k] in Repr && semaphores[k].Valid())
      && (forall k, l :: k in semaphores && l in semaphores && k != l ==> semaphores[k] != semaphores[l])
    }

    /** The semaphores' capacities and fill. */
    ghost function View(): map<string, Slots>
      requires Valid()
      reads this, Repr
    {
      map k | k in semaphores :: Slots(semaphores[k].capacity, semaphores[k].taken)
    }

    constructor ()
      ensures Valid() && semaphores == map[] && config == map[] && Repr == {}
    {
      semaphores, config, Repr := map[], map[], {};
    }

    /** Installs a fresh semaphore, so the slots held on an earlier one are forgotten. */
    method SetConfig(key: string, limits: LimitConfig)
      requires Valid()
      modifies this
      ensures Valid() && fresh(Repr - old(Repr))
      ensures config == old(config)[key := limits]
      ensures limits.maxConcurrentRequests > 0 ==>
                View() == old(View())[key := Slots(limits.maxConcurrentRequests, 0)]
      ensures limits.maxConcurrentRequests <= 0 ==> View() == old(View()) - {key}
    {
      config := config[key := limits];
      if limits.maxConcurrentRequests > 0 {
        var s := new Semaphore(limits.maxConcurrentRequests);
        semaphores := semaphores[key := s];
        Repr := Repr + {s};
      } else {
        semaphores := semaphores - {key};
      }
    }

    method TryAcquire(key: string) returns (ok: bool)
      requires Valid()
      modifies Repr
      ensures Valid() && semaphores == old(semaphores) && Repr == old(Repr)
      ensures ok <==> CanAcquire(old(View()), key)
      ensures View() == AfterAcquire(old(View()), key)
    {
      if key !in semaphores {
        return true;
      }
      ok := semaphores[key].TryAcquire();
    }

    method Release(key: string) returns (blocked: bool)
      requires Valid()
      modifies Repr
      ensures Valid() && semaphores == old(semaphores) && Repr == old(Repr)
      ensures blocked <==> Blocks(old(View()), key)
      ensures View() == AfterRelease(old(View()), key)
    {
      if key !in semaphores {
        return false;
      }
      blocked := semaphores[key].Release();
    }

    method ValidateRequestBodySize(key: string, size: int) returns (ok: bool)
      ensures ok <==> SizeAllowed(config, key, size)
      ensures ok <==> key !in config || config[key].maxRequestBodyBytes == 0 || size <= config[key].maxRequestBodyBytes
    {
      if key !in config || config[key].maxRequestBodyBytes == 0 {
        return true;
      }
      return size <= config[key].maxRequestBodyBytes;
    }
  }
}
