/** The register block transfers Fx55 and Fx65: the copy loops as the
    interpreter runs them, and what they amount to. */
module Memory {
  import opened Bytes

  /** The Fx55 loop `RAM[I + j] = V[j]` after its first `k` iterations. */
  function StoreUpTo(ram: seq<Byte>, base: nat, v: seq<Byte>, k: nat): (r: seq<Byte>)
    requires base + k <= |ram| && k <= |v|
    ensures |r| == |ram|
    ensures forall j :: 0 <= j < k ==> r[base + j] == v[j]
    ensures forall a :: 0 <= a < |ram| && !(base <= a < base + k) ==> r[a] == ram[a]
    decreases k
  {
    if k == 0 then ram
    else StoreUpTo(ram, base, v, k - 1)[base + k - 1 := v[k - 1]]
  }

  /** The Fx65 loop `V[j] = RAM[I + j]` after its first `k` iterations. */
  function LoadUpTo(v: seq<Byte>, ram: seq<Byte>, base: nat, k: nat): (r: seq<Byte>)
    requires base + k <= |ram| && k <= |v|
    ensures |r| == |v|
    ensures forall j :: 0 <= j < k ==> r[j] == ram[base + j]
    ensures forall j :: k <= j < |v| ==> r[j] == v[j]
    decreases k
  {
    if k == 0 then v
    else LoadUpTo(v, ram, base, k - 1)[k - 1 := ram[base + k - 1]]
  }

  /** Storing `k` registers overwrites exactly RAM[base..base+k) with V0..V(k-1). */
  lemma StoreUpToSplice(ram: seq<Byte>, base: nat, v: seq<Byte>, k: nat)
    requires base + k <= |ram| && k <= |v|
    ensures StoreUpTo(ram, base, v, k) == ram[..base] + v[..k] + ram[base + k..]
  {
    var r := StoreUpTo(ram, base, v, k);
    var spliced := ram[..base] + v[..k] + ram[base + k..];
    forall a | 0 <= a < |ram| ensures r[a] == spliced[a] {
      if base <= a < base + k {
        assert r[base + (a - base)] == v[a - base];
      }
    }
    assert r == spliced;
  }

  /** Loading `k` registers overwrites exactly V0..V(k-1) with RAM[base..base+k). */
  lemma {:induction false} LoadUpToSplice(v: seq<Byte>, ram: seq<Byte>, base: nat, k: nat)
    requires base + k <= |ram| && k <= |v|
    ensures LoadUpTo(v, ram, base, k) == ram[base..base + k] + v[k..]
  {
    if k > 0 {
      LoadUpToSplice(v, ram, base, k - 1);
      var prev := ram[base..base + k - 1] + v[k - 1..];
      var next := ram[base..base + k] + v[k..];
      assert prev[k - 1 := ram[base + k - 1]] == next;
    }
  }

  /** Loading back a block just stored from the same registers restores
      them. */
  lemma StoreThenLoad(ram: seq<Byte>, base: nat, v: seq<Byte>, k: nat)
    requires base + k <= |ram| && k <= |v|
    ensures LoadUpTo(v, StoreUpTo(ram, base, v, k), base, k) == v
  {
    StoreUpToSplice(ram, base, v, k);
    var stored := StoreUpTo(ram, base, v, k);
    LoadUpToSplice(v, stored, base, k);
    assert stored[base..base + k] == v[..k];
    assert v[..k] + v[k..] == v;
  }
}
