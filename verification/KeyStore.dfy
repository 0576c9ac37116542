/** The in-memory store and the buckets that view it under a key prefix. */
module KeyStore {
  import opened Wrappers

  datatype Value =
    | Bytes(bytes: string)
    | Items(items: seq<string>)
    | Hash(fields: map<string, string>)
    | Members(members: set<string>)

  type Store = map<string, Value>

  /** The operations a handler can issue on a bucket. */
  datatype Op =
    | Get(key: string) | Put(key: string, value: string) | Delete(key: string) | Incr(key: string, delta: int)
    | ListKeys(prefix: Option<string>)
    | ListPush(key: string, value: string) | ListPop(key: string)
    | ListRange(key: string, start: int, stop: int) | ListLength(key: string)
    | HashGet(key: string, field: string) | HashPut(key: string, field: string, value: string)
    | HashDelete(key: string, field: string) | HashKeys(key: string)
    | SetAdd(key: string, member: string) | SetRemove(key: string, member: string)
    | SetContains(key: string, member: string)

  datatype Fault = WrongType(key: string, actual: string, expected: string)
                 | NotInteger(key: string) | IncrOverflow(key: string)

  /** Key listings are in no particular order, so they are answered as sets. */
  datatype Answer = Done | Found(value: Option<string>) | Number(n: int) | Names(names: set<string>)
                  | Range(items: seq<string>) | Flag(yes: bool) | Failed(fault: Fault)

  const I64_MIN: int := -0x8000_0000_0000_0000
  const I64_MAX: int := 0x7fff_ffff_ffff_ffff

  function Kind(v: Value): string {
    match v
    case Bytes(_) => "bytes"
    case Items(_) => "list"
    case Hash(_) => "hash"
    case Members(_) => "set"
  }

  function DigitsValue(s: string): Option<int> {
    if s == [] then Some(0)
    else
      var rest := DigitsValue(s[..|s| - 1]);
      var d := s[|s| - 1] as int - '0' as int;
      if 0 <= d <= 9 && rest.Some? then Some(10 * rest.value + d) else None
  }

  function ParseI64(s: string): Option<int> {
    var negative := s != [] && s[0] == '-';
    var digits := if s != [] && (s[0] == '-' || s[0] == '+') then s[1..] else s;
    var magnitude := if digits == [] then None else DigitsValue(digits);
    if magnitude.None? then None
    else
      var n: int := if negative then -magnitude.value else magnitude.value;
      if I64_MIN <= n <= I64_MAX then Some(n) else None
  }

  function NatText(n: nat): string {
    var c := ('0' as int + n % 10) as char;
    if n < 10 then [c] else NatText(n / 10) + [c]
  }

  function IntText(n: int): string {
    if n < 0 then ['-'] + NatText(-n) else NatText(n)
  }

  function StripPrefix(full: string, prefix: string): string {
    if prefix <= full then full[|prefix|..] else full
  }

  function Clamp(i: int, len: nat): int {
    if i < 0 then (if len + i < 0 then 0 else len + i) else if i < len then i else len - 1
  }

  /** The answer to `op` at the full storage key `fk`, and the value it leaves there
      (`None`: no key), given what is there now. Faults name the key `user`. */
  function AtKey(at: Option<Value>, op: Op, user: string): (r: (Option<Value>, Answer))
    requires !op.ListKeys?
  {
    var wrong := (expected: string) =>
      (at, Failed(WrongType(user, if at.Some? then Kind(at.value) else "none", expected)));
    match op
    case Get(_) =>
      if at.None? then (at, Found(None))
      else if at.value.Bytes? then (at, Found(Some(at.value.bytes))) else wrong("bytes")
    case Put(_, v) => (Some(Bytes(v)), Done)
    case Delete(_) => (None, Done)
    case Incr(_, delta) =>
      if at.None? then (Some(Bytes(IntText(delta))), Number(delta))
      else if !at.value.Bytes? then wrong("bytes")
      else
        var current := ParseI64(at.value.bytes);
        if current.None? then (at, Failed(NotInteger(user)))
        else if !(I64_MIN <= current.value + delta <= I64_MAX) then (at, Failed(IncrOverflow(user)))
        else (Some(Bytes(IntText(current.value + delta))), Number(current.value + delta))
    case ListPush(_, v) =>
      if at.None? then (Some(Items([v])), Done)
      else if at.value.Items? then (Some(Items(at.value.items + [v])), Done) else wrong("list")
    case ListPop(_) =>
      if at.None? then (at, Found(None))
      else if !at.value.Items? then wrong("list")
      else if at.value.items == [] then (at, Found(None))
      else (Some(Items(at.value.items[1..])), Found(Some(at.value.items[0])))
    case ListRange(_, start, stop) =>
      if at.None? then (at, Range([]))
      else if !at.value.Items? then wrong("list")
      else
        var len := |at.value.items|;
        var i, j := Clamp(start, len), Clamp(stop, len);
        (at, Range(if len == 0 || i > j then [] else at.value.items[i..j + 1]))
    case ListLength(_) =>
      if at.None? then (at, Number(0))
      else if at.value.Items? then (at, Number(|at.value.items|)) else wrong("list")
    case HashGet(_, f) =>
      if at.None? then (at, Found(None))
      else if !at.value.Hash? then wrong("hash")
      else (at, Found(if f in at.value.fields then Some(at.value.fields[f]) else None))
    case HashPut(_, f, v) =>
      if at.None? then (Some(Hash(map[f := v])), Done)
      else if at.value.Hash? then (Some(Hash(at.value.fields[f := v])), Done) else wrong("hash")
    case HashDelete(_, f) =>
      if at.None? then (at, Done)
      else if at.value.Hash? then (Some(Hash(at.value.fields - {f})), Done) else wrong("hash")
    case HashKeys(_) =>
      if at.None? then (at, Names({}))
      else if at.value.Hash? then (at, Names(at.value.fields.Keys)) else wrong("hash")
    case SetAdd(_, m) =>
      if at.None? then (Some(Members({m})), Done)
      else if at.value.Members? then (Some(Members(at.value.members + {m})), Done) else wrong("set")
    case SetRemove(_, m) =>
      if at.None? then (at, Done)
      else if at.value.Members? then (Some(Members(at.value.members - {m})), Done) else wrong("set")
    case SetContains(_, m) =>
      if at.None? then (at, Flag(false))
      else if at.value.Members? then (at, Flag(m in at.value.members)) else wrong("set")
  }

  function Lookup(s: Store, key: string): Option<Value> {
    if key in s then Some(s[key]) else None
  }

  function Assign(s: Store, key: string, v: Option<Value>): Store {
    if v.Some? then s[key := v.value] else s - {key}
  }

  function Listed(s: Store, prefix: string, within: string): set<string> {
    set fk | fk in s && prefix + within <= fk :: StripPrefix(fk, prefix)
  }

  /** One operation on the bucket that views the store under `prefix`. */
  function Exec(s: Store, prefix: string, op: Op): (Store, Answer) {
    if op.ListKeys? then
      (s, Names(Listed(s, prefix, if op.prefix.Some? then op.prefix.value else "")))
    else
      var fk := prefix + op.key;
      var (v, answer) := AtKey(Lookup(s, fk), op, StripPrefix(fk, prefix));
      (Assign(s, fk, v), answer)
  }

  function Under(s: Store, prefix: string): set<string> {
    set k | k in s && prefix <= k
  }

  /** Where an entry under `src` lands when its prefix is exchanged for `dst`. */
  function Moved(k: string, src: string, dst: string): string
    requires src <= k
  {
    dst + k[|src|..]
  }

  lemma MovedBack(k: string, src: string, dst: string)
    requires src <= k
    ensures dst <= Moved(k, src, dst) && Moved(Moved(k, src, dst), dst, src) == k
  {
  }

  /** Every entry under `src` copied to the same suffix under `dst`. */
  function Copied(s: Store, src: string, dst: string): Store {
    CopiedSome(s, Under(s, src), src, dst)
  }

  lemma MovedFrom(keys: set<string>, src: string, dst: string, t: string)
    requires forall k :: k in keys ==> src <= k
    requires t in set k | k in keys :: Moved(k, src, dst)
    ensures dst <= t && Moved(t, dst, src) in keys
  {
    var k :| k in keys && t == Moved(k, src, dst);
    MovedBack(k, src, dst);
  }

  function CopiedSome(s: Store, keys: set<string>, src: string, dst: string): Store
    requires keys <= Under(s, src)
  {
    s + map t | t in (set k | k in keys :: Moved(k, src, dst)) :: (MovedFrom(keys, src, dst, t); s[Moved(t, dst, src)])
  }

  lemma CopyOneMore(s: Store, keys: set<string>, src: string, dst: string, k: string)
    requires keys <= Under(s, src) && k in Under(s, src)
    ensures CopiedSome(s, keys + {k}, src, dst) == CopiedSome(s, keys, src, dst)[Moved(k, src, dst) := s[k]]
  {
    MovedBack(k, src, dst);
    var after, before := CopiedSome(s, keys + {k}, src, dst), CopiedSome(s, keys, src, dst)[Moved(k, src, dst) := s[k]];
    forall t ensures t in after <==> t in before { MovedInto(keys, k, src, dst, t); }
    forall t | t in after ensures after[t] == before[t] { MovedInto(keys, k, src, dst, t); }
  }

  lemma MovedInto(keys: set<string>, k: string, src: string, dst: string, t: string)
    requires src <= k && forall x :: x in keys ==> src <= x
    ensures t in (set x | x in keys + {k} :: Moved(x, src, dst)) <==>
      t in (set x | x in keys :: Moved(x, src, dst)) || t == Moved(k, src, dst)
  {
    assert k in keys + {k};
  }

  lemma CopiedLookup(s: Store, src: string, dst: string, k: string)
    ensures Lookup(Copied(s, src, dst), k) ==
      if dst <= k && src + k[|dst|..] in s then Lookup(s, src + k[|dst|..]) else Lookup(s, k)
  {
    var targets := set x | x in Under(s, src) :: Moved(x, src, dst);
    if dst <= k && src + k[|dst|..] in s {
      var x := src + k[|dst|..];
      assert src <= x && x[|src|..] == k[|dst|..];
      assert k == Moved(x, src, dst);
      assert k in targets;
    } else if k in targets {
      MovedFrom(Under(s, src), src, dst, k);
    }
  }

  function Purged(s: Store, prefix: string): Store {
    map k | k in s && !(prefix <= k) :: s[k]
  }

  class Storage {
    var kv: Store

    constructor ()
      ensures kv == map[]
    {
      kv := map[];
    }

    method CopyKeysWithPrefix(src: string, dst: string) returns (n: nat)
      modifies this
      ensures kv == Copied(old(kv), src, dst)
      ensures n == |Under(old(kv), src)|
    {
      ghost var was := kv;
      var before := kv;
      var todo := set k | k in kv && src <= k;
      assert todo == Under(was, src);
      n := |todo|;
      ghost var copied: set<string> := {};
      while todo != {}
        invariant todo !! copied && todo + copied == Under(was, src)
        invariant kv == CopiedSome(was, copied, src, dst)
        decreases |todo|
      {
        var k :| k in todo;
        CopyOneMore(was, copied, src, dst, k);
        kv := kv[dst + k[|src|..] := before[k]];
        todo, copied := todo - {k}, copied + {k};
      }
    }

    method DeleteWithPrefix(prefix: string) returns (n: nat)
      modifies this
      ensures kv == Purged(old(kv), prefix)
      ensures n == |Under(old(kv), prefix)|
    {
      ghost var was := kv;
      var todo := set k | k in kv && prefix <= k;
      assert todo == Under(was, prefix);
      n := |todo|;
      while todo != {}
        invariant todo <= Under(was, prefix)
        invariant kv == map k | k in was && (!(prefix <= k) || k in todo) :: was[k]
        decreases |todo|
      {
        var k :| k in todo;
        kv := kv - {k};
        todo := todo - {k};
      }
    }
  }

  /** A per-request view of the storage under one prefix. */
  class Bucket {
    const storage: Storage
    const prefix: string

    constructor (storage: Storage, prefix: string)
      ensures this.storage == storage && this.prefix == prefix
    {
      this.storage, this.prefix := storage, prefix;
    }

    method Perform(op: Op) returns (answer: Answer)
      modifies storage
      ensures (storage.kv, answer) == Exec(old(storage.kv), prefix, op)
    {
      if op.ListKeys? {
        var within := if op.prefix.Some? then op.prefix.value else "";
        return Names(set fk | fk in storage.kv && prefix + within <= fk :: StripPrefix(fk, prefix));
      }
      var fk := prefix + op.key;
      var at := if fk in storage.kv then Some(storage.kv[fk]) else None;
      var (v, a) := AtKey(at, op, StripPrefix(fk, prefix));
      storage.kv := if v.Some? then storage.kv[fk := v.value] else storage.kv - {fk};
      answer := a;
    }
  }
}
