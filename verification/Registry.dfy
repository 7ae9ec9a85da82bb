/** The breaker manager: get-or-create by placement key (`Manager` in
    internal/circuit/breaker.go), and the log of calls on breakers. */
module Registry {
  import opened Circuit

  // ---- the abstraction: a total map of breakers, all closed at first -------------------------

  function At(table: map<string, Core>, key: string): Core {
    if key in table then table[key] else FRESH
  }

  function Ensure(table: map<string, Core>, key: string): map<string, Core> {
    table[key := At(table, key)]
  }

  // ---- the class -----------------------------------------------------------------------------

  class Manager {
    const settings: Settings
    var breakers: map<string, Breaker>
    ghost var Repr: set<Breaker>

    ghost predicate Valid()
      reads this, Repr
    {
      && (forall k :: k in breakers ==> breakers[k] in Repr && breakers[k].settings == settings)
      && (forall k, l :: k in breakers && l in breakers && k != l ==> breakers[k] != breakers[l])
    }

    /** The breakers' states. */
    ghost function View(): map<string, Core>
      requires Valid()
      reads this, Repr
    {
      map k | k in breakers :: breakers[k].View()
    }

    constructor (settings: Settings)
      ensures Valid() && this.settings == settings && breakers == map[] && Repr == {}
    {
      this.settings := settings;
      breakers, Repr := map[], {};
    }

    method GetBreaker(key: string, now: int) returns (b: Breaker)
      requires Valid()
      modifies this
      ensures Valid() && fresh(Repr - old(Repr))
      ensures breakers == old(breakers)[key := b]
      ensures key in old(breakers) ==> b == old(breakers[key])
      ensures key !in old(breakers) ==> fresh(b)
      ensures View() == Ensure(old(View()), key)
    {
      if key in breakers {
        return breakers[key];
      }
      b := new Breaker(settings, now);
      breakers := breakers[key := b];
      Repr := Repr + {b};
    }
  }

  // ---- calls on breakers, in the order their locks were taken --------------------------------

  /** `who` called the breaker of `key`; `answer` is what `Allow` returned (true for a record). */
  datatype Call = Call(who: nat, key: string, event: Event, answer: bool)

  function EventsOf(log: seq<Call>, key: string): seq<Event> {
    if log == [] then []
    else
      EventsOf(log[..|log| - 1], key) + if log[|log| - 1].key == key then [log[|log| - 1].event] else []
  }

  lemma EventsOfSnoc(log: seq<Call>, c: Call, key: string)
    ensures EventsOf(log + [c], key) == EventsOf(log, key) + if c.key == key then [c.event] else []
  {
    assert (log + [c])[..|log|] == log;
  }

  /** Every answer is the one the key's own breaker, closed when it was created, gives after the
      calls made on that key before. */
  ghost predicate Sequential(s: Settings, log: seq<Call>) {
    forall i {:trigger log[i]} :: 0 <= i < |log| ==>
      log[i].answer == (log[i].event.Ask? ==>
        Allows(Run(s, EventsOf(log[..i], log[i].key)), log[i].event.now))
  }

  lemma {:induction false} SequentialSnoc(s: Settings, log: seq<Call>, c: Call)
    requires Sequential(s, log)
    requires c.answer == (c.event.Ask? ==> Allows(Run(s, EventsOf(log, c.key)), c.event.now))
    ensures Sequential(s, log + [c])
  {
    var all := log + [c];
    forall i {:trigger all[i]} | 0 <= i < |all|
      ensures all[i].answer == (all[i].event.Ask? ==>
                Allows(Run(s, EventsOf(all[..i], all[i].key)), all[i].event.now))
    {
      if i < |log| {
        assert all[i] == log[i] && all[..i] == log[..i];
      } else {
        assert all[..i] == log;
      }
    }
  }
}
