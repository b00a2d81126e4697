/**
  `Lease` and its optimistic transaction: WATCH, GET, MULTI and EXEC in a retry loop, with other clients writing, and
  keys expiring, between any two of these calls.

  Interference is an arbitrary schedule of other clients' commands. The call is one atomic step at its last EXEC, or at
  the GET that saw another token: whatever else changed during the call was changed before it, by other clients.
*/
module LeaseGuard {
  import opened Wrappers

  type Key = string
  type Value = string

  /** Redis commands, as far as a key's value and the watches on it are concerned. An expiry is a `Delete`. */
  datatype Command =
    | Put(key: Key, value: Value)
    | Delete(key: Key)
    | Touch(key: Key)

  function Apply(store: map<Key, Value>, command: Command): map<Key, Value> {
    match command
    case Put(key, value) => store[key := value]
    case Delete(key) => store - {key}
    case Touch(_) => store
  }

  function ApplyAll(store: map<Key, Value>, commands: seq<Command>): map<Key, Value>
    decreases |commands|
  {
    if commands == [] then store
    else Apply(ApplyAll(store, commands[..|commands| - 1]), commands[|commands| - 1])
  }

  function Lookup(store: map<Key, Value>, key: Key): Option<Value> {
    if key in store then Some(store[key]) else None
  }

  lemma {:induction false} ApplyAllSplits(store: map<Key, Value>, first: seq<Command>, second: seq<Command>)
    ensures ApplyAll(store, first + second) == ApplyAll(ApplyAll(store, first), second)
    decreases |second|
  {
    if second == [] {
      assert first + second == first;
    } else {
      var n := |second| - 1;
      assert (first + second)[..|first| + n] == first + second[..n];
      ApplyAllSplits(store, first, second[..n]);
    }
  }

  /** Commands that do not name a key leave its value alone. */
  lemma {:induction false} ApplyAllKeeps(store: map<Key, Value>, commands: seq<Command>, key: Key)
    requires forall i :: 0 <= i < |commands| ==> commands[i].key != key
    ensures Lookup(ApplyAll(store, commands), key) == Lookup(store, key)
    decreases |commands|
  {
    if commands != [] {
      ApplyAllKeeps(store, commands[..|commands| - 1], key);
    }
  }

  /** The specification of a guarded transaction: one atomic comparison and, if it holds, every command. */
  function Atomic(store: map<Key, Value>, key: Key, token: Value, commands: seq<Command>): (bool, map<Key, Value>) {
    if Lookup(store, key) == Some(token) then (true, ApplyAll(store, commands)) else (false, store)
  }

  /** A Redis server with a script of what other clients do between two calls of ours. */
  class Redis {
    var store: map<Key, Value>
    var versions: map<Key, nat>
    var others: seq<seq<Command>>
    ghost var done: seq<Command>  // what the other clients have done so far

    constructor (others: seq<seq<Command>>)
      ensures store == map[] && this.others == others && done == []
    {
      store, versions, this.others, done := map[], map[], others, [];
    }

    function Version(key: Key): nat
      reads this
    {
      if key in versions then versions[key] else 0
    }

    function Get(key: Key): (value: Option<Value>)
      reads this
      ensures value == Lookup(store, key)
    {
      if key in store then Some(store[key]) else None
    }

    /** Every command marks the key it names as modified, whatever value it leaves. */
    method Execute(commands: seq<Command>)
      modifies this`store, this`versions
      ensures store == ApplyAll(old(store), commands)
      ensures forall key :: Version(key) >= old(Version(key))
      ensures forall i :: 0 <= i < |commands| ==> Version(commands[i].key) > old(Version(commands[i].key))
      ensures commands == [] ==> versions == old(versions)
    {
      for i := 0 to |commands|
        invariant store == ApplyAll(old(store), commands[..i])
        invariant forall key :: Version(key) >= old(Version(key))
        invariant forall j :: 0 <= j < i ==> Version(commands[j].key) > old(Version(commands[j].key))
        invariant i == 0 ==> versions == old(versions)
      {
        store := Apply(store, commands[i]);
        versions := versions[commands[i].key := Version(commands[i].key) + 1];
        assert commands[..i + 1][..i] == commands[..i];
      }
      assert commands[..|commands|] == commands;
    }

    /** The other clients take their next turn, if they have one. */
    method Yield() returns (turn: seq<Command>)
      modifies this
      ensures old(others) == [] ==> others == [] && turn == []
      ensures old(others) != [] ==> turn == old(others)[0] && others == old(others)[1..]
      ensures done == old(done) + turn
      ensures store == ApplyAll(old(store), turn)
      ensures forall key :: Version(key) >= old(Version(key))
      ensures forall i :: 0 <= i < |turn| ==> Version(turn[i].key) > old(Version(turn[i].key))
      ensures turn == [] ==> versions == old(versions)
    {
      turn := [];
      if others != [] {
        turn := others[0];
        others := others[1..];
      }
      Execute(turn);
      done := done + turn;
    }
  }

  class Lease {
    const redis: Redis
    const key: Key
    const token: Value
    var lost: bool

    constructor (redis: Redis, key: Key, token: Value)
      ensures this.redis == redis && this.key == key && this.token == token && !lost
    {
      this.redis, this.key, this.token, lost := redis, key, token, false;
    }

    /** SET NX: the lease is taken exactly when nobody holds it. */
    method Acquire() returns (ok: bool)
      modifies redis`store, redis`versions
      ensures ok <==> key !in old(redis.store)
      ensures redis.store == if ok then old(redis.store)[key := token] else old(redis.store)
    {
      ok := key !in redis.store;
      if ok {
        redis.Execute([Put(key, token)]);
        assert [Put(key, token)][..0] == [];
      }
    }

    /**
      However the other clients interleave, the call is one atomic step taken after everything they did meanwhile: all
      commands if the lease held this token then, none if it did not.
    */
    method Guarded(commands: seq<Command>) returns (ok: bool, ghost meanwhile: seq<Command>)
      modifies redis, this`lost
      ensures redis.done == old(redis.done) + meanwhile
      ensures (ok, redis.store) == Atomic(ApplyAll(old(redis.store), meanwhile), key, token, commands)
      ensures lost == (old(lost) || !ok)
    {
      ghost var base, done := redis.store, redis.done;
      meanwhile := [];
      while true
        invariant redis.done == done + meanwhile
        invariant redis.store == ApplyAll(base, meanwhile)
        invariant lost == old(lost)
        decreases |redis.others|
      {
        meanwhile := Pause(meanwhile, base, done);
        var watched := redis.Version(key);

        meanwhile := Pause(meanwhile, base, done);
        if redis.Get(key) != Some(token) {
          lost := true;
          return false, meanwhile;
        }

        meanwhile := Pause(meanwhile, base, done);
        if redis.Version(key) == watched {
          redis.Execute(commands);
          return true, meanwhile;
        }
      }
    }

    /** Between two calls the other clients take a turn; a key whose version did not move kept its value. */
    method Pause(ghost before: seq<Command>, ghost base: map<Key, Value>, ghost done: seq<Command>)
      returns (ghost meanwhile: seq<Command>)
      requires redis.store == ApplyAll(base, before) && redis.done == done + before
      modifies redis
      ensures redis.store == ApplyAll(base, meanwhile) && redis.done == done + meanwhile
      ensures redis.Version(key) >= old(redis.Version(key))
      ensures redis.Version(key) == old(redis.Version(key)) ==> redis.Get(key) == old(redis.Get(key))
      ensures |redis.others| <= |old(redis.others)|
      ensures redis.Version(key) != old(redis.Version(key)) ==> |redis.others| < |old(redis.others)|
    {
      ghost var store := redis.store;
      var turn := redis.Yield();
      meanwhile := before + turn;
      ApplyAllSplits(base, before, turn);
      if redis.Version(key) == old(redis.Version(key)) {
        ApplyAllKeeps(store, turn, key);
      }
    }

    /** A heartbeat: it only moves the expiry, and only for the owner. */
    method Renew() returns (ok: bool, ghost meanwhile: seq<Command>)
      modifies redis, this`lost
      ensures redis.store == ApplyAll(old(redis.store), meanwhile)
      ensures ok <==> Lookup(redis.store, key) == Some(token)
    {
      ok, meanwhile := Guarded([Touch(key)]);
      ghost var base := ApplyAll(old(redis.store), meanwhile);
      assert ApplyAll(base, [Touch(key)]) == base by {
        assert [Touch(key)][..0] == [];
      }
    }

    /** Releasing removes this attempt's own token and never another's. */
    method Release() returns (ghost meanwhile: seq<Command>)
      modifies redis, this`lost
      ensures
        var base := ApplyAll(old(redis.store), meanwhile);
        redis.store == if Lookup(base, key) == Some(token) then base - {key} else base
    {
      var ok: bool;
      ok, meanwhile := Guarded([Delete(key)]);
      ghost var base := ApplyAll(old(redis.store), meanwhile);
      assert ApplyAll(base, [Delete(key)]) == base - {key} by {
        assert [Delete(key)][..0] == [];
      }
    }
  }
}
