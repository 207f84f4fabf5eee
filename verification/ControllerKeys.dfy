/** The controller's registry of callbacks (and, with the same code, of filters) by unique key. */
module ControllerKeys {
  import opened HookList
  import opened Prelude

  datatype Lookup<!T(==)> = NoProxy | NoUser | Found(hooks: Hooks<T>)

  datatype Outcome = Ok | NoSuchProxy | NoSuchUser | NoSuchKey | Crash

  function Dots(n: nat): (r: string)
    ensures |r| == n
  {
    if n == 0 then "" else Dots(n - 1) + "."
  }

  /** The keys an extended candidate can still collide with. */
  function AtLeast(taken: set<string>, n: nat): set<string> {
    set k | k in taken && |k| >= n
  }

  lemma Shrinks(taken: set<string>, key: string)
    requires key in taken
    ensures |AtLeast(taken, |key| + 1)| < |AtLeast(taken, |key|)|
  {
    var less, more := AtLeast(taken, |key| + 1), AtLeast(taken, |key|);
    assert key in more && key !in less && less <= more;
    assert less + {key} <= more;
    SubsetIsSmaller(less + {key}, more);
  }

  /** The candidate with the fewest dots that is not taken. */
  function FreshKey(taken: set<string>, key: string): string
    decreases |AtLeast(taken, |key|)|
  {
    if key in taken then Shrinks(taken, key); FreshKey(taken, key + ".") else key
  }

  /** The key is free, and every candidate with fewer dots is taken. */
  lemma {:induction false} FreshKeyIsFirst(taken: set<string>, key: string) returns (n: nat)
    ensures FreshKey(taken, key) == key + Dots(n) && key + Dots(n) !in taken
    ensures forall m: nat :: m < n ==> key + Dots(m) in taken
    decreases |AtLeast(taken, |key|)|
  {
    if key in taken {
      Shrinks(taken, key);
      var k := FreshKeyIsFirst(taken, key + ".");
      n := k + 1;
      forall m: nat | m <= n
        ensures m > 0 ==> key + Dots(m) == key + "." + Dots(m - 1)
      {
        if m > 0 {
          DotFirst(m);
          assert key + ("." + Dots(m - 1)) == key + "." + Dots(m - 1);
        }
      }
      assert key + Dots(0) == key;
    } else {
      n := 0;
      assert key + Dots(0) == key;
    }
  }

  lemma {:induction false} DotFirst(m: nat)
    requires m > 0
    ensures Dots(m) == "." + Dots(m - 1)
  {
    if m > 1 {
      DotFirst(m - 1);
    }
  }

  class Controller<T(==)> {
    var registry: map<string, T>

    constructor ()
      ensures registry == map[]
    {
      registry := map[];
    }

    /** AddEventCallbackToUser and AddChannelFilterToUser; `prefix` is the formatted part of the key
        before the index. */
    method AddToUser(lookup: Lookup<T>, prefix: string, x: T) returns (outcome: Outcome, key: string)
      requires lookup.Found? ==> lookup.hooks.Valid()
      modifies this, if lookup.Found? then {lookup.hooks} else {}
      ensures lookup.Found? ==>
                && outcome == Ok && lookup.hooks.Valid()
                && lookup.hooks.List() == old(lookup.hooks.List()) + [x]
                && key == FreshKey(old(registry).Keys, prefix + Decimal(|old(lookup.hooks.List())|))
                && key !in old(registry) && registry == old(registry)[key := x]
      ensures !lookup.Found? ==>
                && outcome == (if lookup.NoProxy? then NoSuchProxy else NoSuchUser)
                && key == "" && registry == old(registry)
    {
      key := "";
      match lookup {
        case NoProxy => outcome := NoSuchProxy;
        case NoUser => outcome := NoSuchUser;
        case Found(hooks) =>
          var index := hooks.Add(x);
          key := prefix + Decimal(index);
          ghost var base := key;
          while key in registry
            invariant registry == old(registry)
            invariant hooks.Valid() && hooks.List() == old(hooks.List()) + [x]
            invariant FreshKey(registry.Keys, key) == FreshKey(registry.Keys, base)
            decreases |AtLeast(registry.Keys, |key|)|
          {
            Shrinks(registry.Keys, key);
            key := key + ".";
          }
          registry := registry[key := x];
          outcome := Ok;
      }
    }

    /** RemoveEventCallbackFromUserByKey and its filter twin. The key goes even if the user is not
        found; nothing else in the registry changes. */
    method RemoveByKey(lookup: Lookup<T>, key: string) returns (outcome: Outcome)
      requires lookup.Found? ==> lookup.hooks.Valid()
      modifies this, if lookup.Found? then {lookup.hooks} else {}
      ensures lookup.Found? ==> lookup.hooks.Valid()
      ensures key !in old(registry) ==>
                && outcome == NoSuchKey && registry == old(registry)
                && (lookup.Found? ==> lookup.hooks.List() == old(lookup.hooks.List()))
      ensures key in old(registry) && lookup.Found? ==>
                var x, before := old(registry)[key], old(lookup.hooks.List());
                && (outcome == (if Removable(before, x) then Ok else Crash))
                && (outcome == Ok ==>
                      && multiset(lookup.hooks.List()) == multiset(before)[x := 0]
                      && forall k: nat :: k < |lookup.hooks.List()| ==> Replaced(before, x, k, lookup.hooks.List()[k]))
      ensures key in old(registry) && !lookup.Found? ==> outcome == if lookup.NoUser? then NoSuchUser else Ok
      ensures key in old(registry) && outcome != Crash ==> registry == old(registry) - {key}
    {
      if key !in registry {
        return NoSuchKey;
      }
      match lookup {
        case NoProxy => outcome := Ok;
        case NoUser => outcome := NoSuchUser;
        case Found(hooks) =>
          var completed := hooks.Remove(registry[key]);
          if !completed {
            return Crash;
          }
          outcome := Ok;
      }
      registry := registry - {key};
    }
  }

  /** A call on the registry: an add under a formatted key, or a removal. */
  datatype Op<T> = Add(base: string, x: T) | Remove(key: string)

  function Apply<T>(registry: map<string, T>, op: Op<T>): map<string, T> {
    match op
    case Add(base, x) => registry[FreshKey(registry.Keys, base) := x]
    case Remove(key) => registry - {key}
  }

  function ApplyAll<T>(registry: map<string, T>, ops: seq<Op<T>>): map<string, T>
    decreases |ops|
  {
    if ops == [] then registry else ApplyAll(Apply(registry, ops[0]), ops[1..])
  }

  /** Over any run of adds and removes an entry changes only by a removal under its own key. */
  lemma {:induction false} EntriesAreStable<T>(registry: map<string, T>, ops: seq<Op<T>>, key: string)
    requires key in registry && Remove(key) !in ops
    ensures key in ApplyAll(registry, ops) && ApplyAll(registry, ops)[key] == registry[key]
    decreases |ops|
  {
    if ops != [] {
      if ops[0].Add? {
        var _ := FreshKeyIsFirst(registry.Keys, ops[0].base);
      }
      EntriesAreStable(Apply(registry, ops[0]), ops[1..], key);
    }
  }
}
