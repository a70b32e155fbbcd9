/** The table of short strings in user/lua/lstring.c: buckets of linked strings, rehashed in place
    when the table grows or shrinks, so that equal contents are always the same object. */
module LuaStrings {
  import opened Bytes
  import opened Bags

  type Id = nat
  type Text = seq<Byte>
  const NIL: Id := 0

  /** `luaS_hash`, from the last byte to the first. */
  function Mix(s: Text, h: bv32): bv32
    decreases |s|
  {
    if s == [] then h else Mix(s[..|s| - 1], Stir(h, s[|s| - 1]))
  }

  function Stir(h: bv32, b: Byte): bv32 { h ^ ((h << 5) + (h >> 2) + b as bv32) }

  lemma MixStep(s: Text, h: bv32)
    requires s != []
    ensures Mix(s, h) == Mix(s[..|s| - 1], Stir(h, s[|s| - 1]))
  {
    hide Stir;
  }

  lemma MixNone(h: bv32)
    ensures Mix([], h) == h
  {
  }

  function Hash(s: Text, seed: bv32): nat
    requires |s| < 0x1_0000_0000
  {
    Mix(s, seed ^ |s| as bv32) as nat
  }

  // ------------------------------------------------------------------------------------------
  // Chains
  // ------------------------------------------------------------------------------------------

  /** Following `next` from `head` visits exactly `xs`. */
  ghost predicate IsChain(next: map<Id, Id>, head: Id, xs: seq<Id>)
    decreases |xs|
  {
    if xs == [] then head == NIL
    else head == xs[0] && head != NIL && head in next && IsChain(next, next[head], xs[1..])
  }

  ghost predicate AllChains(next: map<Id, Id>, vect: seq<Id>, chains: seq<seq<Id>>) {
    |vect| == |chains| && forall i :: 0 <= i < |vect| ==> IsChain(next, vect[i], chains[i])
  }

  /** Nothing is stored twice. */
  ghost predicate Once(m: multiset<Id>) { forall x :: m[x] <= 1 }

  /** A link that the chain does not use may be changed. */
  lemma {:induction false} ChainFrame(next: map<Id, Id>, head: Id, xs: seq<Id>, p: Id, v: Id)
    requires IsChain(next, head, xs) && p !in xs
    ensures IsChain(next[p := v], head, xs)
    decreases |xs|
  {
    if xs != [] { ChainFrame(next, next[head], xs[1..], p, v); }
  }

  /** Moving the first string of a detached chain to the front of bucket `h`. */
  lemma Push(next: map<Id, Id>, vect: seq<Id>, chains: seq<seq<Id>>, rest: seq<Id>, h: nat)
    requires AllChains(next, vect, chains) && rest != [] && IsChain(next, rest[0], rest) && h < |vect|
    requires Once(Bag(chains) + multiset(rest))
    ensures var p := rest[0];
      var next', vect', chains' := next[p := vect[h]], vect[h := p], chains[h := [p] + chains[h]];
      && AllChains(next', vect', chains') && IsChain(next', next[p], rest[1..])
      && Bag(chains') + multiset(rest[1..]) == Bag(chains) + multiset(rest)
  {
    var p, m := rest[0], Bag(chains) + multiset(rest);
    var next' := next[p := vect[h]];
    assert rest == [p] + rest[1..];
    assert m[p] <= 1;
    assert p !in rest[1..] by { assert multiset(rest) == multiset{p} + multiset(rest[1..]); }
    ChainFrame(next, next[p], rest[1..], p, vect[h]);
    forall i | 0 <= i < |vect| ensures p !in chains[i] && IsChain(next', vect[i], chains[i]) {
      InBag(chains, p);
      assert p in multiset(rest);
      ChainFrame(next, vect[i], chains[i], p, vect[h]);
    }
    assert ([p] + chains[h])[1..] == chains[h];
    BagReplace(chains, h, [p] + chains[h]);
    PushBag(Bag(chains), chains[h], rest, p);
  }

  lemma PushBag(b: multiset<Id>, c: seq<Id>, rest: seq<Id>, p: Id)
    requires multiset(c) <= b && rest != [] && rest[0] == p
    ensures b - multiset(c) + multiset([p] + c) + multiset(rest[1..]) == b + multiset(rest)
  {
    assert rest == [p] + rest[1..];
    assert multiset(rest) == multiset{p} + multiset(rest[1..]);
    assert multiset([p] + c) == multiset{p} + multiset(c);
  }

  /** Taking a whole bucket off. */
  lemma Detach(next: map<Id, Id>, vect: seq<Id>, chains: seq<seq<Id>>, i: nat)
    requires AllChains(next, vect, chains) && i < |vect|
    ensures AllChains(next, vect[i := NIL], chains[i := []])
    ensures Bag(chains[i := []]) + multiset(chains[i]) == Bag(chains)
  {
    BagReplace(chains, i, []);
  }

  lemma {:induction false} ChainNext(next: map<Id, Id>, head: Id, xs: seq<Id>, k: nat)
    requires IsChain(next, head, xs) && k < |xs|
    ensures xs[k] != NIL && xs[k] in next && next[xs[k]] == if k + 1 < |xs| then xs[k + 1] else NIL
    decreases k
  {
    if k > 0 { ChainNext(next, next[head], xs[1..], k - 1); }
  }

  function Without(xs: seq<Id>, k: nat): seq<Id>
    requires k < |xs|
  {
    xs[..k] + xs[k + 1..]
  }

  /** Unlinking the `k`th string of a chain. */
  lemma {:induction false} Unlink(next: map<Id, Id>, head: Id, xs: seq<Id>, k: nat)
    requires IsChain(next, head, xs) && k < |xs| && forall i, j :: 0 <= i < j < |xs| ==> xs[i] != xs[j]
    requires xs[k] in next
    ensures if k == 0 then IsChain(next, next[xs[0]], Without(xs, 0))
            else IsChain(next[xs[k - 1] := next[xs[k]]], head, Without(xs, k))
    decreases k
  {
    if k == 0 {
      assert Without(xs, 0) == xs[1..];
    } else {
      var rest, next' := xs[1..], next[xs[k - 1] := next[xs[k]]];
      assert Without(xs, k)[1..] == Without(rest, k - 1) && Without(xs, k)[0] == xs[0];
      if k == 1 {
        ChainNext(next, head, xs, 1);
        assert IsChain(next, next[rest[0]], rest[1..]);
        ChainFrame(next, next[rest[0]], rest[1..], xs[0], next[xs[1]]);
        assert Without(rest, 0) == rest[1..];
      } else {
        Unlink(next, next[head], rest, k - 1);
        assert rest[k - 2] == xs[k - 1] && rest[k - 1] == xs[k];
      }
    }
  }

  // ------------------------------------------------------------------------------------------
  // Placement
  // ------------------------------------------------------------------------------------------

  /** Every string in bucket `j` belongs there in a table of `n` buckets. */
  ghost predicate PlacedAt(hash: map<Id, nat>, chains: seq<seq<Id>>, n: nat, j: nat)
    requires n > 0 && j < |chains|
  {
    forall x :: x in chains[j] ==> x in hash && hash[x] % n == j
  }

  ghost predicate Placed(hash: map<Id, nat>, chains: seq<seq<Id>>, n: nat)
    requires n > 0
  {
    forall j :: 0 <= j < |chains| ==> PlacedAt(hash, chains, n, j)
  }

  /** Halfway through a rehash: buckets up to `i` and the new ones are right, the others may still
      hold strings placed for the old size. */
  ghost predicate PlacedSoFar(hash: map<Id, nat>, chains: seq<seq<Id>>, osize: nat, nsize: nat, i: nat)
    requires nsize > 0
  {
    forall j :: 0 <= j < |chains| && (j < i || osize <= j) ==> PlacedAt(hash, chains, nsize, j)
  }

  lemma PushPlaced(hash: map<Id, nat>, chains: seq<seq<Id>>, osize: nat, nsize: nat, i: nat, p: Id, h: nat)
    requires nsize > 0 && PlacedSoFar(hash, chains, osize, nsize, i) && p in hash && h == hash[p] % nsize
      && h < |chains|
    ensures PlacedSoFar(hash, chains[h := [p] + chains[h]], osize, nsize, i)
  {
    var c := chains[h := [p] + chains[h]];
    forall j | 0 <= j < |c| && (j < i || osize <= j) ensures PlacedAt(hash, c, nsize, j) {
      assert PlacedAt(hash, chains, nsize, j);
    }
  }

  lemma DetachPlaced(hash: map<Id, nat>, chains: seq<seq<Id>>, osize: nat, nsize: nat, i: nat)
    requires nsize > 0 && PlacedSoFar(hash, chains, osize, nsize, i) && i < |chains|
    ensures PlacedSoFar(hash, chains[i := []], osize, nsize, i + 1)
  {
    var c := chains[i := []];
    forall j | 0 <= j < |c| && (j < i + 1 || osize <= j) ensures PlacedAt(hash, c, nsize, j) {
      if j != i { assert PlacedAt(hash, chains, nsize, j); }
    }
  }

  /** Buckets beyond the size are empty. */
  lemma BeyondEmpty(hash: map<Id, nat>, chains: seq<seq<Id>>, n: nat, j: nat)
    requires n > 0 && Placed(hash, chains, n) && n <= j < |chains|
    ensures chains[j] == []
  {
    assert PlacedAt(hash, chains, n, j);
    FirstIn(chains[j]);
  }

  lemma {:induction false} BagPrefix(chains: seq<seq<Id>>, n: nat)
    requires n <= |chains| && forall j :: n <= j < |chains| ==> chains[j] == []
    ensures Bag(chains[..n]) == Bag(chains)
    decreases |chains|
  {
    if n == |chains| {
      assert chains[..n] == chains;
    } else {
      var k := |chains| - 1;
      BagPrefix(chains[..k], n);
      assert chains == chains[..k] + [chains[k]] && chains[..k][..n] == chains[..n];
      BagAppend(chains[..k], chains[k]);
    }
  }

  /** Equal contents are the same object. */
  ghost predicate Unique(text: map<Id, Text>, m: multiset<Id>) {
    forall x, y :: x in m && y in m && x in text && y in text && text[x] == text[y] ==> x == y
  }

  /** Every stored string is a known one with the hash of its contents. */
  ghost predicate Known(text: map<Id, Text>, hash: map<Id, nat>, m: multiset<Id>, seed: bv32) {
    forall x :: x in m ==>
      x != NIL && x in text && x in hash && |text[x]| < 0x1_0000_0000 && hash[x] == Hash(text[x], seed)
  }

  // ------------------------------------------------------------------------------------------
  // Taking one bucket apart
  // ------------------------------------------------------------------------------------------

  /** The strings still in `rest`, chained from `p`, are the only ones not in a bucket. */
  ghost predicate Mid(next: map<Id, Id>, vect: seq<Id>, chains: seq<seq<Id>>, p: Id, rest: seq<Id>, m: multiset<Id>,
                      hash: map<Id, nat>, osize: nat, nsize: nat, i: nat)
    requires nsize > 0
  {
    && AllChains(next, vect, chains) && IsChain(next, p, rest) && Bag(chains) + multiset(rest) == m && Once(m)
    && PlacedSoFar(hash, chains, osize, nsize, i)
  }

  lemma MidStart(next: map<Id, Id>, vect: seq<Id>, chains: seq<seq<Id>>, m: multiset<Id>,
                 hash: map<Id, nat>, osize: nat, nsize: nat, i: nat)
    requires AllChains(next, vect, chains) && m == Bag(chains) && Once(m) && i < |vect| && nsize > 0
    requires PlacedSoFar(hash, chains, osize, nsize, i)
    ensures i < |chains| && Mid(next, vect[i := NIL], chains[i := []], vect[i], chains[i], m, hash, osize, nsize, i + 1)
  {
    Detach(next, vect, chains, i);
    DetachPlaced(hash, chains, osize, nsize, i);
  }

  lemma InMid(next: map<Id, Id>, vect: seq<Id>, chains: seq<seq<Id>>, p: Id, rest: seq<Id>, m: multiset<Id>,
              hash: map<Id, nat>, osize: nat, nsize: nat, i: nat, text: map<Id, Text>, seed: bv32)
    requires nsize > 0 && p != NIL && Mid(next, vect, chains, p, rest, m, hash, osize, nsize, i)
      && Known(text, hash, m, seed)
    ensures rest != [] && p == rest[0] && p in next && p in hash && |vect| == |chains|
  {
    assert p in multiset(rest) && p in m;
  }

  lemma MidStep(next: map<Id, Id>, vect: seq<Id>, chains: seq<seq<Id>>, p: Id, rest: seq<Id>, m: multiset<Id>,
                hash: map<Id, nat>, osize: nat, nsize: nat, i: nat)
    requires 0 < nsize <= |vect| && Mid(next, vect, chains, p, rest, m, hash, osize, nsize, i)
    requires rest != [] && p == rest[0] && p in next && p in hash && |vect| == |chains|
    ensures var h := hash[p] % nsize;
      Mid(next[p := vect[h]], vect[h := p], chains[h := [p] + chains[h]], next[p], rest[1..], m, hash, osize, nsize, i)
  {
    Push(next, vect, chains, rest, hash[p] % nsize);
    PushPlaced(hash, chains, osize, nsize, i, p, hash[p] % nsize);
  }

  lemma MidEnd(next: map<Id, Id>, vect: seq<Id>, chains: seq<seq<Id>>, p: Id, rest: seq<Id>, m: multiset<Id>,
               hash: map<Id, nat>, osize: nat, nsize: nat, i: nat)
    requires nsize > 0 && Mid(next, vect, chains, p, rest, m, hash, osize, nsize, i) && p == NIL
    ensures AllChains(next, vect, chains) && Bag(chains) == m && Once(m) && PlacedSoFar(hash, chains, osize, nsize, i)
  {
    assert rest == [];
  }

  // ------------------------------------------------------------------------------------------
  // The table
  // ------------------------------------------------------------------------------------------

  class StringTable {
    const seed: bv32
    var vect: seq<Id>
    var size: nat
    var nuse: nat
    var hnext: map<Id, Id>
    var text: map<Id, Text>
    var hash: map<Id, nat>
    var dead: set<Id>
    ghost var chains: seq<seq<Id>>

    /** `luaS_init`. */
    constructor (seed: bv32)
      ensures Valid() && Stored() == multiset{} && size == MINSTRTABSIZE
    {
      this.seed := seed;
      vect, size, nuse := seq(MINSTRTABSIZE, _ => NIL), MINSTRTABSIZE, 0;
      hnext, text, hash, dead := map[], map[], map[], {};
      chains := Empties(MINSTRTABSIZE);
      new;
      BagPrefix(chains, 0);
    }

    ghost function Stored(): multiset<Id>
      reads this
    {
      Bag(chains)
    }

    ghost predicate Linked()
      reads this
    {
      AllChains(hnext, vect, chains) && Once(Stored()) && Known(text, hash, Stored(), seed)
    }

    ghost predicate Valid()
      reads this
    {
      && Linked() && size == |vect| > 0 && Placed(hash, chains, size)
      && nuse == |Stored()| && Unique(text, Stored())
    }

    /** The inner loop of `tablerehash`: one old bucket is taken apart and its strings are chained
        into their new buckets. */
    method RehashBucket(i: nat, osize: nat, nsize: nat)
      requires Linked() && i < osize <= |vect| && 0 < nsize <= |vect| && PlacedSoFar(hash, chains, osize, nsize, i)
      modifies this`vect, this`hnext, this`chains
      ensures Linked() && |vect| == old(|vect|) && Stored() == old(Stored())
      ensures PlacedSoFar(hash, chains, osize, nsize, i + 1)
    {
      hide Bag, IsChain, Mid, AllChains, PlacedSoFar, Known, Once;
      ghost var m := Stored();
      MidStart(hnext, vect, chains, m, hash, osize, nsize, i);
      ghost var rest := chains[i];
      var p := vect[i];
      vect := vect[i := NIL];
      chains := chains[i := []];
      while p != NIL
        invariant Mid(hnext, vect, chains, p, rest, m, hash, osize, nsize, i + 1) && |vect| == old(|vect|)
        decreases |rest|
      {
        InMid(hnext, vect, chains, p, rest, m, hash, osize, nsize, i + 1, text, seed);
        MidStep(hnext, vect, chains, p, rest, m, hash, osize, nsize, i + 1);
        var next := hnext[p];
        var h := hash[p] % nsize;
        hnext := hnext[p := vect[h]];
        vect := vect[h := p];
        chains := chains[h := [p] + chains[h]];
        p := next;
        rest := rest[1..];
      }
      MidEnd(hnext, vect, chains, p, rest, m, hash, osize, nsize, i + 1);
    }

    /** `tablerehash`: the same strings, placed for the new size. The slots beyond the old size may
        hold anything before. */
    method Rehash(osize: nat, nsize: nat)
      requires nsize > 0 && |vect| == if osize < nsize then nsize else osize
      requires AllChains(hnext, vect[..osize], chains) && Once(Stored()) && Known(text, hash, Stored(), seed)
      modifies this`vect, this`hnext, this`chains
      ensures Linked() && |vect| == old(|vect|) && Stored() == old(Stored()) && Placed(hash, chains, nsize)
    {
      hide Bag, IsChain;
      var k := osize;
      while k < nsize
        invariant osize <= k && |vect| == old(|vect|) && vect[..osize] == old(vect[..osize])
        invariant hnext == old(hnext) && chains == old(chains)
        invariant forall j :: osize <= j < k && j < |vect| ==> vect[j] == NIL
      {
        vect := vect[k := NIL];
        k := k + 1;
      }
      Extend(hnext, vect, osize, chains);
      chains := chains + Empties(|vect| - osize);
      var i := 0;
      while i < osize
        invariant 0 <= i <= osize && |vect| == old(|vect|) && Linked() && Stored() == old(Stored())
        invariant PlacedSoFar(hash, chains, osize, nsize, i)
      {
        RehashBucket(i, osize, nsize);
        i := i + 1;
      }
      forall j | 0 <= j < |chains| ensures PlacedAt(hash, chains, nsize, j) {}
    }

    /** `luaS_resize`; `granted` says whether the vector could be reallocated and `junk` is what the
        new slots hold. If it could not, a table that was being shrunk is put back. */
    method Resize(nsize: nat, granted: bool, junk: seq<Id>)
      requires Valid() && nsize > 0 && (nsize > size ==> |junk| == nsize - size)
      modifies this`vect, this`hnext, this`chains, this`size
      ensures Valid() && Stored() == old(Stored()) && size == if granted then nsize else old(size)
    {
      hide Bag, IsChain, Known, Once, Unique, Placed;
      var osize := size;
      if nsize < osize {
        assert vect[..osize] == vect;
        Rehash(osize, nsize);
        Truncate(hnext, vect, chains, hash, nsize);
        chains := chains[..nsize];
      }
      if !granted {
        if nsize < osize {
          Rehash(nsize, osize);
        }
      } else {
        if nsize < osize {
          vect := vect[..nsize];
        } else if nsize > osize {
          vect := vect + junk;
        }
        size := nsize;
        if nsize > osize {
          assert vect[..osize] == old(vect);
          Rehash(osize, nsize);
        }
      }
    }

    /** The search of `internshrstr` along one bucket. */
    method Find(b: nat, str: Text) returns (ts: Id)
      requires Valid() && b < size
      ensures ts == NIL ==> forall x :: x in chains[b] ==> !Says(text, x, str)
      ensures ts != NIL ==> ts in chains[b] && Says(text, ts, str)
    {
      hide Bag, IsChain, Once, Unique, Placed, Known;
      ghost var xs, m := chains[b], Stored();
      assert IsChain(hnext, vect[b], xs);
      ts := vect[b];
      ghost var k := 0;
      HeadIs(hnext, ts, xs);
      while ts != NIL
        invariant 0 <= k <= |xs| && ts == (if k < |xs| then xs[k] else NIL)
        invariant forall j :: 0 <= j < k ==> !Says(text, xs[j], str)
        decreases |xs| - k
      {
        ChainNext(hnext, vect[b], xs, k);
        InTable(chains, b, k, text, hash, seed);
        if text[ts] == str { return; }
        ts := hnext[ts];
        k := k + 1;
      }
      if k < |xs| { ChainNext(hnext, vect[b], xs, k); }
    }

    /** The walk of `luaS_remove` to the string before `ts` in its bucket. */
    method FindBefore(ts: Id, b: nat) returns (prev: Id, ghost k: nat)
      requires Valid() && ts in Stored() && ts in hash && b == hash[ts] % size
      ensures k < |chains[b]| && chains[b][k] == ts && prev == if k == 0 then NIL else chains[b][k - 1]
      ensures ts in hnext && (k > 0 ==> prev != NIL && prev in hnext)
    {
      hide Bag, IsChain, Once, Unique, Placed, Known;
      ghost var last := WhereIs(chains, hash, text, seed, size, ts);
      ghost var xs := chains[b];
      assert IsChain(hnext, vect[b], xs);
      var cur := vect[b];
      prev, k := NIL, 0;
      HeadIs(hnext, vect[b], xs);
      while cur != ts
        invariant 0 <= k <= last && cur == xs[k] && prev == (if k == 0 then NIL else xs[k - 1])
        invariant k > 0 ==> prev != NIL && prev in hnext
        decreases last - k
      {
        ChainNext(hnext, vect[b], xs, k);
        prev := cur;
        cur := hnext[cur];
        k := k + 1;
      }
      ChainNext(hnext, vect[b], xs, k);
    }

    /** `luaS_remove`: the string is unlinked from its bucket. */
    method Remove(ts: Id)
      requires Valid() && ts in Stored()
      modifies this`vect, this`hnext, this`chains, this`nuse
      ensures Valid() && Stored() == old(Stored()) - multiset{ts}
    {
      hide Bag, IsChain, Once, Unique, Placed, Known, AllChains;
      HasHash(text, hash, Stored(), seed, ts);
      var b := hash[ts] % size;
      BucketsMatch(hnext, vect, chains);
      var prev;
      ghost var k;
      prev, k := FindBefore(ts, b);
      Removed(hnext, vect, chains, b, k, text, hash, seed, size);
      chains := chains[b := Without(chains[b], k)];
      if prev == NIL {
        vect := vect[b := hnext[ts]];
      } else {
        hnext := hnext[prev := hnext[ts]];
      }
      nuse := nuse - 1;
    }

    /** `luaS_hash`. */
    method HashString(str: Text) returns (h: nat)
      requires |str| < 0x1_0000_0000
      ensures h == Hash(str, seed)
    {
      hide Mix;
      var v := seed ^ |str| as bv32;
      ghost var start := v;
      var l := |str|;
      assert str[..l] == str;
      while l > 0
        invariant 0 <= l <= |str| && Mix(str[..l], v) == Mix(str, start)
      {
        MixStep(str[..l], v);
        assert str[..l][..l - 1] == str[..l - 1];
        v := Stir(v, str[l - 1]);
        l := l - 1;
      }
      MixNone(v);
      return v as nat;
    }

    /** A new string at the front of its bucket. */
    method Link(ts: Id, str: Text, h: nat)
      requires Valid() && ts != NIL && ts !in Stored() && |str| < 0x1_0000_0000 && h == Hash(str, seed)
      requires forall x :: x in Stored() ==> !Says(text, x, str)
      modifies this`vect, this`hnext, this`chains, this`nuse, this`text, this`hash
      ensures Valid() && Stored() == old(Stored()) + multiset{ts} && Says(text, ts, str)
      ensures text == old(text)[ts := str]
    {
      hide Bag, IsChain, Hash, AllChains, Known, Once, Unique, Placed;
      var list := h % size;
      BucketsMatch(hnext, vect, chains);
      PushNew(hnext, vect, chains, list, ts);
      Grown(text, hash, seed, Stored(), ts, str);
      LinkedPlaced(hash, chains, size, ts, h);
      text, hash := text[ts := str], hash[ts := h];
      hnext := hnext[ts := vect[list]];
      vect := vect[list := ts];
      chains := chains[list := [ts] + chains[list]];
      nuse := nuse + 1;
    }

    /** `internshrstr`: the string with these contents if there is one, dead or alive, and otherwise
        the new object `obj`. `granted` and `junk` are for growing. */
    method Intern(str: Text, obj: Id, granted: bool, junk: seq<Id>) returns (ts: Id)
      requires Valid() && obj != NIL && obj !in Stored() && |str| < 0x1_0000_0000 && |junk| == size
      modifies this
      ensures Valid() && ts in Stored() && Says(text, ts, str) && ts !in dead
      ensures ts in old(Stored()) ==> Stored() == old(Stored()) && old(Says(text, ts, str))
      ensures ts !in old(Stored()) ==> ts == obj && Stored() == old(Stored()) + multiset{ts}
      ensures ts !in old(Stored()) ==> forall x :: old(x in Stored()) ==> !old(Says(text, x, str))
      ensures (forall x :: x in old(Stored()) ==> Says(text, x, old(if x in text then text[x] else [])))
      ensures dead == old(dead) - {ts}
      ensures size == if ts !in old(Stored()) && granted && old(nuse >= size && size <= 0x1FFF_FFFF)
                      then 2 * old(size) else old(size)
      ensures granted && old(nuse <= size && size <= 0x1FFF_FFFF) ==> nuse <= size
    {
      hide Bag, IsChain, Hash, AllChains, Once, Unique;
      var h := HashString(str);
      BucketsMatch(hnext, vect, chains);
      ts := Find(h % size, str);
      if ts != NIL {
        InBag(chains, ts);
        if ts in dead { dead := dead - {ts}; }
        return;
      }
      NotStored(chains, text, hash, seed, size, str);
      if nuse >= size && size <= MAXSTRTB / 2 {
        Resize(size * 2, granted, junk);
      }
      ts := obj;
      dead := dead - {ts};
      Link(ts, str, h);
    }
  }

  const MINSTRTABSIZE := 128
  const MAXSTRTB := 0x3FFF_FFFF

  lemma PushNew(next: map<Id, Id>, vect: seq<Id>, chains: seq<seq<Id>>, h: nat, p: Id)
    requires AllChains(next, vect, chains) && h < |vect| && |chains| == |vect| && p != NIL && p !in Bag(chains)
      && Once(Bag(chains))
    ensures AllChains(next[p := vect[h]], vect[h := p], chains[h := [p] + chains[h]])
    ensures Bag(chains[h := [p] + chains[h]]) == Bag(chains) + multiset{p}
  {
    var next' := next[p := NIL];
    forall i | 0 <= i < |vect| ensures IsChain(next', vect[i], chains[i]) {
      InBag(chains, p);
      assert IsChain(next, vect[i], chains[i]);
      ChainFrame(next, vect[i], chains[i], p, NIL);
    }
    Push(next', vect, chains, [p], h);
    assert next'[p := vect[h]] == next[p := vect[h]];
  }

  lemma Grown(text: map<Id, Text>, hash: map<Id, nat>, seed: bv32, m: multiset<Id>, ts: Id, str: Text)
    requires Once(m) && Known(text, hash, m, seed) && Unique(text, m) && ts !in m && ts != NIL && |str| < 0x1_0000_0000
    requires forall x :: x in m ==> !Says(text, x, str)
    ensures var text', hash', m' := text[ts := str], hash[ts := Hash(str, seed)], m + multiset{ts};
      Once(m') && Known(text', hash', m', seed) && Unique(text', m')
  {
    hide Hash;
  }

  lemma LinkedPlaced(hash: map<Id, nat>, chains: seq<seq<Id>>, n: nat, ts: Id, h: nat)
    requires n > 0 && |chains| == n && Placed(hash, chains, n) && ts !in Bag(chains)
    ensures Placed(hash[ts := h], chains[h % n := [ts] + chains[h % n]], n)
  {
    var c, hash' := chains[h % n := [ts] + chains[h % n]], hash[ts := h];
    forall j | 0 <= j < |c| ensures PlacedAt(hash', c, n, j) {
      assert PlacedAt(hash, chains, n, j);
      InBag(chains, ts);
    }
  }

  /** A string that is not in the bucket of its hash is not stored at all. */
  lemma NotStored(chains: seq<seq<Id>>, text: map<Id, Text>, hash: map<Id, nat>, seed: bv32, n: nat, str: Text)
    requires n > 0 && |chains| == n && Placed(hash, chains, n) && Known(text, hash, Bag(chains), seed)
      && |str| < 0x1_0000_0000
    requires forall x :: x in chains[Hash(str, seed) % n] ==> !Says(text, x, str)
    ensures forall x :: x in Bag(chains) ==> !Says(text, x, str)
  {
    hide Hash;
    forall x | x in Bag(chains) ensures !Says(text, x, str) {
      var k := WhereIs(chains, hash, text, seed, n, x);
      HasHash(text, hash, Bag(chains), seed, x);
      assert hash[x] == Hash(text[x], seed);
    }
  }

  lemma HasHash(text: map<Id, Text>, hash: map<Id, nat>, m: multiset<Id>, seed: bv32, x: Id)
    requires Known(text, hash, m, seed) && x in m
    ensures x in hash && x in text && x != NIL && |text[x]| < 0x1_0000_0000 && hash[x] == Hash(text[x], seed)
  {
  }

  lemma BucketsMatch(next: map<Id, Id>, vect: seq<Id>, chains: seq<seq<Id>>)
    requires AllChains(next, vect, chains)
    ensures |vect| == |chains|
  {
  }

  predicate Says(text: map<Id, Text>, x: Id, str: Text) { x in text && text[x] == str }

  lemma InTable(chains: seq<seq<Id>>, b: nat, k: nat, text: map<Id, Text>, hash: map<Id, nat>, seed: bv32)
    requires b < |chains| && k < |chains[b]| && Known(text, hash, Bag(chains), seed)
    ensures chains[b][k] in text && chains[b][k] in hash && chains[b][k] in Bag(chains)
  {
    assert chains[b][k] in chains[b];
    InBag(chains, chains[b][k]);
  }

  /** A stored string is in the bucket of its hash. */
  lemma WhereIs(chains: seq<seq<Id>>, hash: map<Id, nat>, text: map<Id, Text>, seed: bv32, n: nat, x: Id)
    returns (k: nat)
    requires n > 0 && Placed(hash, chains, n) && |chains| == n && x in Bag(chains)
      && Known(text, hash, Bag(chains), seed)
    ensures x in hash && hash[x] % n < |chains| && k < |chains[hash[x] % n]| && chains[hash[x] % n][k] == x
  {
    InBag(chains, x);
    var t :| 0 <= t < |chains| && x in chains[t];
    assert PlacedAt(hash, chains, n, t);
    k :| 0 <= k < |chains[t]| && chains[t][k] == x;
  }

  /** No string occurs twice in a bucket. */
  lemma Distinct(chains: seq<seq<Id>>, b: nat)
    requires Once(Bag(chains)) && b < |chains|
    ensures forall i, j :: 0 <= i < j < |chains[b]| ==> chains[b][i] != chains[b][j]
  {
    BagReplace(chains, b, []);
    var xs := chains[b];
    forall i, j | 0 <= i < j < |xs| ensures xs[i] != xs[j] { Twice(xs, i, j, Bag(chains)); }
  }

  lemma Twice(xs: seq<Id>, i: nat, j: nat, m: multiset<Id>)
    requires i < j < |xs| && multiset(xs) <= m && Once(m)
    ensures xs[i] != xs[j]
  {
    var x := xs[i];
    assert xs == xs[..i] + [xs[i]] + xs[i + 1..j] + [xs[j]] + xs[j + 1..];
    assert multiset(xs)[x] <= m[x] <= 1;
    assert multiset(xs) == multiset(xs[..i]) + multiset{xs[i]} + multiset(xs[i + 1..j]) + multiset{xs[j]}
      + multiset(xs[j + 1..]);
  }

  lemma WithoutBag(xs: seq<Id>, k: nat)
    requires k < |xs|
    ensures multiset(Without(xs, k)) == multiset(xs) - multiset{xs[k]}
  {
    assert xs == xs[..k] + [xs[k]] + xs[k + 1..];
  }

  /** The table after one string has been unlinked. */
  lemma Removed(next: map<Id, Id>, vect: seq<Id>, chains: seq<seq<Id>>, b: nat, k: nat,
                text: map<Id, Text>, hash: map<Id, nat>, seed: bv32, n: nat)
    requires AllChains(next, vect, chains) && Once(Bag(chains)) && Known(text, hash, Bag(chains), seed)
    requires n > 0 && |vect| == n && Placed(hash, chains, n) && Unique(text, Bag(chains))
    requires b < n && |chains| == n && k < |chains[b]| && chains[b][k] in next && (k > 0 ==> chains[b][k - 1] in next)
    ensures var xs, c := chains[b], chains[b := Without(chains[b], k)];
      && (if k == 0 then AllChains(next, vect[b := next[xs[0]]], c)
        else AllChains(next[xs[k - 1] := next[xs[k]]], vect, c))
      && Bag(c) == Bag(chains) - multiset{xs[k]} && xs[k] in Bag(chains)
      && Once(Bag(c)) && Known(text, hash, Bag(c), seed) && Placed(hash, c, n) && Unique(text, Bag(c))
  {
    hide Bag, IsChain, AllChains, Known, Unique, Once, Placed;
    var xs := chains[b];
    var c := chains[b := Without(xs, k)];
    BagReplace(chains, b, Without(xs, k));
    WithoutBag(xs, k);
    RemovedBag(Bag(chains), xs, k);
    RemovedChains(next, vect, chains, b, k);
    Fewer(text, hash, seed, Bag(chains), Bag(c));
    RemovedPlaced(hash, chains, n, b, k);
  }

  lemma RemovedPlaced(hash: map<Id, nat>, chains: seq<seq<Id>>, n: nat, b: nat, k: nat)
    requires n > 0 && Placed(hash, chains, n) && b < |chains| && k < |chains[b]|
    ensures Placed(hash, chains[b := Without(chains[b], k)], n)
  {
    var c := chains[b := Without(chains[b], k)];
    forall j | 0 <= j < |c| ensures PlacedAt(hash, c, n, j) {
      assert PlacedAt(hash, chains, n, j);
      forall x | x in c[j] ensures x in chains[j] {}
    }
  }

  lemma Fewer(text: map<Id, Text>, hash: map<Id, nat>, seed: bv32, m: multiset<Id>, m': multiset<Id>)
    requires Once(m) && Known(text, hash, m, seed) && Unique(text, m) && m' <= m
    ensures Once(m') && Known(text, hash, m', seed) && Unique(text, m')
  {
  }

  lemma RemovedBag(m: multiset<Id>, xs: seq<Id>, k: nat)
    requires multiset(xs) <= m && k < |xs|
    ensures m - multiset(xs) + (multiset(xs) - multiset{xs[k]}) == m - multiset{xs[k]} && xs[k] in m
  {
    assert xs[k] in multiset(xs);
  }

  lemma RemovedChains(next: map<Id, Id>, vect: seq<Id>, chains: seq<seq<Id>>, b: nat, k: nat)
    requires AllChains(next, vect, chains) && Once(Bag(chains))
    requires b < |vect| && k < |chains[b]| && chains[b][k] in next && (k > 0 ==> chains[b][k - 1] in next)
    ensures var xs, c := chains[b], chains[b := Without(chains[b], k)];
      if k == 0 then AllChains(next, vect[b := next[xs[0]]], c) else AllChains(next[xs[k - 1] := next[xs[k]]], vect, c)
  {
    var xs := chains[b];
    Distinct(chains, b);
    assert IsChain(next, vect[b], xs);
    Unlink(next, vect[b], xs, k);
    if k > 0 {
      forall i | 0 <= i < |vect| && i != b ensures IsChain(next[xs[k - 1] := next[xs[k]]], vect[i], chains[i]) {
        Apart(chains, b, i, xs[k - 1]);
        assert IsChain(next, vect[i], chains[i]);
        ChainFrame(next, vect[i], chains[i], xs[k - 1], next[xs[k]]);
      }
    }
  }

  /** A string of one bucket is in no other. */
  lemma Apart(chains: seq<seq<Id>>, b: nat, i: nat, x: Id)
    requires Once(Bag(chains)) && b < |chains| && i < |chains| && i != b && x in chains[b]
    ensures x !in chains[i]
  {
    BagReplace(chains, b, []);
    var c := chains[b := []];
    InBag(c, x);
    assert x in multiset(chains[b]) && Bag(chains)[x] <= 1;
    assert x !in Bag(c);
    assert c[i] == chains[i];
  }

  /** After a rehash to fewer buckets the others can be given back. */
  lemma Truncate(next: map<Id, Id>, vect: seq<Id>, chains: seq<seq<Id>>, hash: map<Id, nat>, n: nat)
    requires AllChains(next, vect, chains) && 0 < n <= |vect| && Placed(hash, chains, n)
    ensures AllChains(next, vect[..n], chains[..n]) && Placed(hash, chains[..n], n)
    ensures Bag(chains[..n]) == Bag(chains)
  {
    forall j | n <= j < |chains| ensures chains[j] == [] { BeyondEmpty(hash, chains, n, j); }
    BagPrefix(chains, n);
    forall j | 0 <= j < n ensures PlacedAt(hash, chains[..n], n, j) { assert PlacedAt(hash, chains, n, j); }
  }

  function Empties(n: nat): (e: seq<seq<Id>>)
    ensures |e| == n && forall j :: 0 <= j < n ==> e[j] == []
  {
    seq(n, _ => [])
  }

  lemma HeadIs(next: map<Id, Id>, head: Id, xs: seq<Id>)
    requires IsChain(next, head, xs)
    ensures (head == NIL <==> xs == []) && (xs != [] ==> head == xs[0])
  {
  }

  /** Cleared slots are empty chains. */
  lemma Extend(next: map<Id, Id>, vect: seq<Id>, osize: nat, chains: seq<seq<Id>>)
    requires osize <= |vect| && AllChains(next, vect[..osize], chains)
    requires forall j :: osize <= j < |vect| ==> vect[j] == NIL
    ensures AllChains(next, vect, chains + Empties(|vect| - osize))
    ensures Bag(chains + Empties(|vect| - osize)) == Bag(chains)
  {
    var c := chains + Empties(|vect| - osize);
    forall i | 0 <= i < |vect| ensures IsChain(next, vect[i], c[i]) {
      if i < osize { assert IsChain(next, vect[..osize][i], chains[i]); }
    }
    assert c[..osize] == chains;
    BagPrefix(c, osize);
  }
}
