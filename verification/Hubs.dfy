/** The hub's two books: which clients a key has, and which keys a client has. */
module Hubs {
  import opened Sequences

  datatype Book<C> = Book(records: map<string, seq<C>>, keys: map<C, seq<string>>)

  function KeysOf<C(==)>(b: Book<C>, c: C): seq<string> { if c in b.keys then b.keys[c] else [] }

  function ClientsOf<C(==)>(b: Book<C>, k: string): seq<C> { if k in b.records then b.records[k] else [] }

  function Subscribed<C(==)>(b: Book<C>, k: string, c: C): Book<C> {
    if c in ClientsOf(b, k) then b
    else Book(b.records[k := ClientsOf(b, k) + [c]], b.keys[c := KeysOf(b, c) + [k]])
  }

  /** `unsubscribeUnsafe`. */
  function Unsubscribed<C(==)>(b: Book<C>, k: string, c: C): Book<C> {
    if k !in b.records then b
    else
      var clients := Drop(b.records[k], c);
      var records := if c in b.records[k] && clients == [] then b.records - {k} else b.records[k := clients];
      if c !in b.keys || k !in b.keys[c] then Book(records, b.keys)
      else
        var ks := Drop(b.keys[c], k);
        Book(records, if ks == [] then b.keys - {c} else b.keys[c := ks])
  }

  function UnsubscribedEach<C(==)>(b: Book<C>, ks: seq<string>, c: C): Book<C> {
    if ks == [] then b else Unsubscribed(UnsubscribedEach(b, ks[..|ks| - 1], c), ks[|ks| - 1], c)
  }

  class Hub<C(==)> {
    var records: map<string, seq<C>>
    var keyRecords: map<C, seq<string>>

    constructor ()
      ensures Now() == Book(map[], map[])
    {
      records, keyRecords := map[], map[];
    }

    function Now(): Book<C>
      reads this
    {
      Book(records, keyRecords)
    }

    method Subscribe(key: string, client: C)
      modifies this
      ensures Now() == Subscribed(old(Now()), key, client)
      ensures client !in ClientsOf(old(Now()), key) ==> ClientsOf(Now(), key) == ClientsOf(old(Now()), key) + [client]
    {
      if key !in records {
        records := records[key := []];
      }
      var has := false;
      for i := 0 to |records[key]|
        invariant has <==> client in records[key][..i]
      {
        has := has || records[key][i] == client;
      }
      assert records[key][..|records[key]|] == records[key];
      if !has {
        records := records[key := records[key] + [client]];
        keyRecords := keyRecords[client := KeysOf(Now(), client) + [key]];
      }
    }

    method Unsubscribe(key: string, client: C)
      modifies this
      ensures Now() == Unsubscribed(old(Now()), key, client)
    {
      hide Drop;
      if key !in records {
        return;
      }
      var i := Find(records[key], client);
      if i < |records[key]| {
        DropAt(records[key], client, i);
        records := records[key := records[key][..i] + records[key][i + 1..]];
        if |records[key]| == 0 {
          records := records - {key};
        }
      } else {
        DropNone(records[key], client);
      }
      if client !in keyRecords {
        return;
      }
      var keys := keyRecords[client];
      var j := Find(keys, key);
      if j < |keys| {
        DropAt(keys, key, j);
        keyRecords := keyRecords[client := keys[..j] + keys[j + 1..]];
        if |keyRecords[client]| == 0 {
          keyRecords := keyRecords - {client};
        }
      }
    }

    method UnsubscribeAll(client: C)
      modifies this
      ensures Now() == UnsubscribedEach(old(Now()), KeysOf(old(Now()), client), client)
    {
      var keys := KeysOf(Now(), client);
      for i := 0 to |keys|
        invariant Now() == UnsubscribedEach(old(Now()), keys[..i], client)
      {
        assert keys[..i + 1][..i] == keys[..i];
        Unsubscribe(keys[i], client);
      }
      assert keys[..|keys|] == keys;
    }

    method Subscribers(key: string) returns (out: seq<C>)
      ensures out == ClientsOf(Now(), key)
    {
      out := if key in records then records[key] else [];
    }
  }

  method Find<T(==)>(s: seq<T>, x: T) returns (i: nat)
    ensures i <= |s| && (i < |s| <==> x in s) && (i < |s| ==> s[i] == x && x !in s[..i])
  {
    i := 0;
    while i < |s|
      invariant i <= |s| && x !in s[..i]
    {
      if s[i] == x {
        return;
      }
      i := i + 1;
    }
    assert s[..|s|] == s;
  }

  // ---- the two books agree ----

  ghost predicate Pair<C>(b: Book<C>, k: string, c: C) { k in b.records && c in b.records[k] }

  ghost predicate Mirrored<C>(b: Book<C>, k: string, c: C) { c in b.keys && k in b.keys[c] }

  ghost predicate Tidy<C>(b: Book<C>) {
    && (forall k :: k in b.records ==> b.records[k] != [] && NoDup(b.records[k]))
    && (forall c :: c in b.keys ==> b.keys[c] != [] && NoDup(b.keys[c]))
  }

  /** Each book is the other turned around, without doubles and without empty entries. */
  ghost predicate Exact<C(!new)>(b: Book<C>) {
    Tidy(b) && forall k, c {:trigger Pair(b, k, c)} {:trigger Mirrored(b, k, c)} :: Pair(b, k, c) <==> Mirrored(b, k, c)
  }

  lemma SubscribedPairs<C(!new)>(b: Book<C>, k: string, c: C)
    requires Exact(b)
    ensures Exact(Subscribed(b, k, c))
    ensures forall l, d :: Pair(Subscribed(b, k, c), l, d) <==> Pair(b, l, d) || (l == k && d == c)
  {
    var b1 := Subscribed(b, k, c);
    assert Pair(b, k, c) <==> Mirrored(b, k, c);
    forall l, d ensures Pair(b1, l, d) <==> Pair(b, l, d) || (l == k && d == c)
                ensures Mirrored(b1, l, d) <==> Mirrored(b, l, d) || (l == k && d == c)
    {
    }
  }

  lemma UnsubscribedPairs<C(!new)>(b: Book<C>, k: string, c: C)
    requires Exact(b)
    ensures Exact(Unsubscribed(b, k, c))
    ensures forall l, d :: Pair(Unsubscribed(b, k, c), l, d) <==> Pair(b, l, d) && !(l == k && d == c)
  {
    var b1 := Unsubscribed(b, k, c);
    assert Pair(b, k, c) <==> Mirrored(b, k, c);
    if k in b.records {
      DropNoDup(b.records[k], c);
      forall d ensures d in Drop(b.records[k], c) <==> d in b.records[k] && d != c {
        DropHas(b.records[k], c, d);
      }
      if c !in b.records[k] {
        DropNone(b.records[k], c);
      }
    }
    if c in b.keys {
      DropNoDup(b.keys[c], k);
      forall l ensures l in Drop(b.keys[c], k) <==> l in b.keys[c] && l != k {
        DropHas(b.keys[c], k, l);
      }
    }
    forall l, d ensures Pair(b1, l, d) <==> Pair(b, l, d) && !(l == k && d == c)
                ensures Mirrored(b1, l, d) <==> Mirrored(b, l, d) && !(l == k && d == c)
    {
    }
  }

  lemma {:induction false} EachPairs<C(!new)>(b: Book<C>, ks: seq<string>, c: C)
    requires Exact(b)
    ensures Exact(UnsubscribedEach(b, ks, c))
    ensures forall l, d :: Pair(UnsubscribedEach(b, ks, c), l, d) <==> Pair(b, l, d) && !(l in ks && d == c)
  {
    hide Exact, Pair, Unsubscribed;
    if ks != [] {
      var front, k := ks[..|ks| - 1], ks[|ks| - 1];
      assert ks == front + [k];
      EachPairs(b, front, c);
      UnsubscribedPairs(UnsubscribedEach(b, front, c), k, c);
    }
  }

  /** A client that leaves is in neither book; all others keep what they had. */
  lemma AllGone<C(!new)>(b: Book<C>, c: C)
    requires Exact(b)
    ensures var b1 := UnsubscribedEach(b, KeysOf(b, c), c);
            && Exact(b1) && c !in b1.keys && (forall k :: c !in ClientsOf(b1, k))
            && (forall k, d :: d != c ==> (Pair(b1, k, d) <==> Pair(b, k, d)))
  {
    var b1 := UnsubscribedEach(b, KeysOf(b, c), c);
    EachPairs(b, KeysOf(b, c), c);
    forall k ensures !Pair(b1, k, c) && c !in ClientsOf(b1, k) {
      assert Pair(b, k, c) <==> Mirrored(b, k, c);
    }
    if c in b1.keys {
      var k := b1.keys[c][0];
      assert Mirrored(b1, k, c);
    }
  }

  datatype Op<C> = Sub(k: string, c: C) | Unsub(k: string, c: C) | UnsubAll(c: C)

  function After<C(==)>(b: Book<C>, op: Op<C>): Book<C> {
    match op
    case Sub(k, c) => Subscribed(b, k, c)
    case Unsub(k, c) => Unsubscribed(b, k, c)
    case UnsubAll(c) => UnsubscribedEach(b, KeysOf(b, c), c)
  }

  function Run<C(==)>(ops: seq<Op<C>>): Book<C> {
    if ops == [] then Book(map[], map[]) else After(Run(ops[..|ops| - 1]), ops[|ops| - 1])
  }

  /** Whether the last word on a pair was that it is subscribed. */
  predicate Wanted<C(==)>(ops: seq<Op<C>>, k: string, c: C) {
    ops != [] &&
    match ops[|ops| - 1]
    case Sub(l, d) => (l == k && d == c) || Wanted(ops[..|ops| - 1], k, c)
    case Unsub(l, d) => !(l == k && d == c) && Wanted(ops[..|ops| - 1], k, c)
    case UnsubAll(d) => d != c && Wanted(ops[..|ops| - 1], k, c)
  }

  /** After any operations the books are exact, and hold just the pairs last asked for. */
  lemma {:induction false} ExactOverRuns<C(!new)>(ops: seq<Op<C>>)
    ensures Exact(Run(ops)) && forall k, c :: Pair(Run(ops), k, c) <==> Wanted(ops, k, c)
  {
    hide Exact, Subscribed, Unsubscribed, UnsubscribedEach, KeysOf;
    if ops == [] {
      EmptyExact(Run(ops));
    } else {
      var front, op := ops[..|ops| - 1], ops[|ops| - 1];
      ExactOverRuns(front);
      var b := Run(front);
      match op
      case Sub(k, c) => SubscribedPairs(b, k, c);
      case Unsub(k, c) => UnsubscribedPairs(b, k, c);
      case UnsubAll(c) =>
        AllGone(b, c);
        forall k ensures !Pair(Run(ops), k, c) {
          assert c !in ClientsOf(Run(ops), k);
        }
    }
  }

  lemma EmptyExact<C(!new)>(b: Book<C>)
    requires b == Book(map[], map[])
    ensures Exact(b) && forall k, c :: !Pair(b, k, c)
  {
  }
}
