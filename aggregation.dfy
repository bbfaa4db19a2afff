/**
 * First-seen de-duplication of records, shared by the per-page extraction
 * (listar_processos_sei.py:637-656, keyed by `id_procedimento`) and by
 * `_adicionar_processos` (787-794, keyed by `id_procedimento or
 * numero_processo`).
 */
module Aggregation {
  import opened Records

  /** Which identity the de-duplication uses. */
  datatype KeyPolicy = ByKey | ByIdOnly

  function KeyOf(p: Processo, policy: KeyPolicy): string {
    match policy
    case ByKey => Key(p)
    case ByIdOnly => p.idProcedimento
  }

  function KeySet(r: seq<Processo>, policy: KeyPolicy): set<string> {
    set i | 0 <= i < |r| :: KeyOf(r[i], policy)
  }

  /**
   * The records of `n` that are kept, in order: a record is kept when its key
   * is non-empty and has been seen neither in `seen` nor on an earlier kept
   * record.
   */
  function Keep(seen: set<string>, n: seq<Processo>, policy: KeyPolicy): seq<Processo>
    decreases |n|
  {
    if n == [] then []
    else
      var k := KeyOf(n[0], policy);
      if k != "" && k !in seen then [n[0]] + Keep(seen + {k}, n[1..], policy)
      else Keep(seen, n[1..], policy)
  }

  predicate UniqueKeys(r: seq<Processo>, policy: KeyPolicy) {
    forall i, j :: 0 <= i < j < |r| ==> KeyOf(r[i], policy) != KeyOf(r[j], policy)
  }

  /** `n[j]` is the first record of `n` carrying its key, and that key is non-empty and new. */
  predicate Admitted(seen: set<string>, n: seq<Processo>, j: int, policy: KeyPolicy) {
    0 <= j < |n| && KeyOf(n[j], policy) != "" && KeyOf(n[j], policy) !in seen &&
    forall i :: 0 <= i < j ==> KeyOf(n[i], policy) != KeyOf(n[j], policy)
  }

  lemma KeySetConcat(a: seq<Processo>, b: seq<Processo>, policy: KeyPolicy)
    ensures KeySet(a + b, policy) == KeySet(a, policy) + KeySet(b, policy)
  {
    var ab := a + b;
    forall k | k in KeySet(ab, policy) ensures k in KeySet(a, policy) + KeySet(b, policy) {
      var i :| 0 <= i < |ab| && KeyOf(ab[i], policy) == k;
      if i >= |a| { assert ab[i] == b[i - |a|]; }
    }
    forall k | k in KeySet(a, policy) ensures k in KeySet(ab, policy) {
      var i :| 0 <= i < |a| && KeyOf(a[i], policy) == k;
      assert ab[i] == a[i];
    }
    forall k | k in KeySet(b, policy) ensures k in KeySet(ab, policy) {
      var i :| 0 <= i < |b| && KeyOf(b[i], policy) == k;
      assert ab[i + |a|] == b[i];
    }
  }

  /** Every kept record comes from `n`, has a non-empty key outside `seen`, and no two kept records share a key. */
  lemma {:induction false} KeepSound(seen: set<string>, n: seq<Processo>, policy: KeyPolicy)
    ensures forall q :: q in Keep(seen, n, policy) ==> q in n && KeyOf(q, policy) != "" && KeyOf(q, policy) !in seen
    ensures UniqueKeys(Keep(seen, n, policy), policy)
    decreases |n|
  {
    if n != [] {
      var k := KeyOf(n[0], policy);
      if k != "" && k !in seen {
        KeepSound(seen + {k}, n[1..], policy);
        var tail := Keep(seen + {k}, n[1..], policy);
        var r := [n[0]] + tail;
        forall i, j | 0 <= i < j < |r| ensures KeyOf(r[i], policy) != KeyOf(r[j], policy) {
          assert r[j] == tail[j - 1];
          if i > 0 { assert r[i] == tail[i - 1]; }
        }
      } else {
        KeepSound(seen, n[1..], policy);
      }
    }
  }

  /** The first record carrying each non-empty new key is kept: the first one seen wins. */
  lemma {:induction false} KeepFirstSeen(seen: set<string>, n: seq<Processo>, policy: KeyPolicy)
    ensures forall j :: Admitted(seen, n, j, policy) ==> n[j] in Keep(seen, n, policy)
    decreases |n|
  {
    if n != [] {
      var k := KeyOf(n[0], policy);
      var seen' := if k != "" && k !in seen then seen + {k} else seen;
      KeepFirstSeen(seen', n[1..], policy);
      forall j | Admitted(seen, n, j, policy) ensures n[j] in Keep(seen, n, policy) {
        if j > 0 {
          assert n[1..][j - 1] == n[j];
          assert Admitted(seen', n[1..], j - 1, policy);
        }
      }
    }
  }

  /** De-duplicating a concatenation is de-duplicating each part in turn, carrying the keys seen. */
  lemma {:induction false} KeepConcat(seen: set<string>, a: seq<Processo>, b: seq<Processo>, policy: KeyPolicy)
    ensures Keep(seen, a + b, policy) == Keep(seen, a, policy) + Keep(seen + KeySet(Keep(seen, a, policy), policy), b, policy)
    decreases |a|
  {
    if a == [] {
      assert a + b == b;
      assert seen + KeySet([], policy) == seen;
    } else {
      assert (a + b)[0] == a[0];
      assert (a + b)[1..] == a[1..] + b;
      var k := KeyOf(a[0], policy);
      if k != "" && k !in seen {
        KeepConcat(seen + {k}, a[1..], b, policy);
        KeepConcatKept(seen, a, b, policy);
      } else {
        KeepConcat(seen, a[1..], b, policy);
      }
    }
  }

  lemma KeySetCons(p: Processo, r: seq<Processo>, policy: KeyPolicy)
    ensures KeySet([p] + r, policy) == {KeyOf(p, policy)} + KeySet(r, policy)
  {
    KeySetConcat([p], r, policy);
    assert [p][0] == p;
    assert KeySet([p], policy) == {KeyOf(p, policy)};
  }

  /** A record with a new, non-empty key is kept, and its key joins the ones seen. */
  lemma KeepHead(seen: set<string>, n: seq<Processo>, policy: KeyPolicy)
    requires n != [] && KeyOf(n[0], policy) != "" && KeyOf(n[0], policy) !in seen
    ensures Keep(seen, n, policy) == [n[0]] + Keep(seen + {KeyOf(n[0], policy)}, n[1..], policy)
  {
  }

  /** The keys seen after keeping `a`, when its first record is kept. */
  lemma SeenAfterKept(seen: set<string>, a: seq<Processo>, policy: KeyPolicy)
    requires a != [] && KeyOf(a[0], policy) != "" && KeyOf(a[0], policy) !in seen
    ensures var seen' := seen + {KeyOf(a[0], policy)};
      seen + KeySet(Keep(seen, a, policy), policy) == seen' + KeySet(Keep(seen', a[1..], policy), policy)
  {
    KeepHead(seen, a, policy);
    KeySetCons(a[0], Keep(seen + {KeyOf(a[0], policy)}, a[1..], policy), policy);
  }

  lemma KeepHeadConcat(seen: set<string>, a: seq<Processo>, b: seq<Processo>, policy: KeyPolicy)
    requires a != [] && KeyOf(a[0], policy) != "" && KeyOf(a[0], policy) !in seen
    ensures Keep(seen, a + b, policy) == [a[0]] + Keep(seen + {KeyOf(a[0], policy)}, a[1..] + b, policy)
  {
    var ab := a + b;
    assert ab[0] == a[0] && ab[1..] == a[1..] + b;
    KeepHead(seen, ab, policy);
  }

  /** The step of `KeepConcat` where the first record of `a` is kept. */
  lemma KeepConcatKept(seen: set<string>, a: seq<Processo>, b: seq<Processo>, policy: KeyPolicy)
    requires a != [] && KeyOf(a[0], policy) != "" && KeyOf(a[0], policy) !in seen
    requires var seen' := seen + {KeyOf(a[0], policy)};
      Keep(seen', a[1..] + b, policy) == Keep(seen', a[1..], policy) + Keep(seen' + KeySet(Keep(seen', a[1..], policy), policy), b, policy)
    ensures Keep(seen, a + b, policy) == Keep(seen, a, policy) + Keep(seen + KeySet(Keep(seen, a, policy), policy), b, policy)
  {
    var seen' := seen + {KeyOf(a[0], policy)};
    var tail := Keep(seen', a[1..], policy);
    KeepHeadConcat(seen, a, b, policy);
    KeepHead(seen, a, policy);
    SeenAfterKept(seen, a, policy);
    ConsAssoc(a[0], tail, Keep(seen' + KeySet(tail, policy), b, policy));
  }

  lemma ConsAssoc<T>(x: T, s: seq<T>, t: seq<T>)
    ensures [x] + (s + t) == ([x] + s) + t
  {
  }

  /** `f` picks the elements of `r` out of `n`, in increasing positions: `r` is a subsequence of `n`. */
  predicate Picks(r: seq<Processo>, n: seq<Processo>, f: seq<nat>) {
    && |f| == |r|
    && (forall i :: 0 <= i < |f| ==> f[i] < |n| && r[i] == n[f[i]])
    && (forall i, j :: 0 <= i < j < |f| ==> f[i] < f[j])
  }

  /** Every position moved one further on. */
  function Shift(f: seq<nat>): (g: seq<nat>)
    ensures |g| == |f| && forall i :: 0 <= i < |f| ==> g[i] == f[i] + 1
  {
    seq(|f|, i requires 0 <= i < |f| => f[i] + 1)
  }

  /** The positions in `n` of the records `Keep` takes, in order. */
  function KeptIndices(seen: set<string>, n: seq<Processo>, policy: KeyPolicy): seq<nat>
    decreases |n|
  {
    if n == [] then []
    else
      var k := KeyOf(n[0], policy);
      var rest := KeptIndices(SeenAfterHead(seen, n, policy), n[1..], policy);
      if k != "" && k !in seen then [0] + Shift(rest) else Shift(rest)
  }

  /** Shifting the picks of the tail by one picks the same records out of the whole list. */
  lemma PicksShift(r: seq<Processo>, n: seq<Processo>, rest: seq<nat>)
    requires n != [] && Picks(r, n[1..], rest)
    ensures Picks(r, n, Shift(rest))
    ensures Picks([n[0]] + r, n, [0] + Shift(rest))
  {
    var shifted := Shift(rest);
    forall i | 0 <= i < |shifted| ensures shifted[i] < |n| && r[i] == n[shifted[i]] {
      assert n[1..][rest[i]] == n[rest[i] + 1];
    }
    var f := [0] + shifted;
    var r' := [n[0]] + r;
    forall i | 0 <= i < |f| ensures f[i] < |n| && r'[i] == n[f[i]] {
      if i > 0 {
        assert f[i] == shifted[i - 1] && r'[i] == r[i - 1];
      }
    }
  }

  /** The kept records keep their input order: they are the records of `n` at `KeptIndices`. */
  lemma {:induction false} KeepSubsequence(seen: set<string>, n: seq<Processo>, policy: KeyPolicy)
    ensures Picks(Keep(seen, n, policy), n, KeptIndices(seen, n, policy))
    decreases |n|
  {
    if n != [] {
      var seen' := SeenAfterHead(seen, n, policy);
      KeepSubsequence(seen', n[1..], policy);
      PicksShift(Keep(seen', n[1..], policy), n, KeptIndices(seen', n[1..], policy));
    }
  }

  /** The keys seen after the first record of `n` has been considered. */
  function SeenAfterHead(seen: set<string>, n: seq<Processo>, policy: KeyPolicy): set<string>
    requires n != []
  {
    var k := KeyOf(n[0], policy);
    if k != "" && k !in seen then seen + {k} else seen
  }

  /** The positions of the whole list: the head's when it is kept, then the tail's moved one further on. */
  lemma KeptIndicesCons(seen: set<string>, n: seq<Processo>, policy: KeyPolicy, off: nat)
    requires n != []
    requires off == if KeyOf(n[0], policy) != "" && KeyOf(n[0], policy) !in seen then 1 else 0
    ensures KeptIndices(seen, n, policy) == (if off == 1 then [0] else []) + Shift(KeptIndices(SeenAfterHead(seen, n, policy), n[1..], policy))
  {
  }

  /** Where the shifted positions land after a prefix of `off` positions. */
  lemma ShiftedAt(pre: seq<nat>, rest: seq<nat>, off: nat)
    requires |pre| == off
    ensures |pre + Shift(rest)| == |rest| + off
    ensures forall t :: 0 <= t < |rest| ==> (pre + Shift(rest))[t + off] == rest[t] + 1
  {
  }

  /** An admitted position of the tail is admitted, one further on, in the whole list. */
  lemma AdmittedFromTail(seen: set<string>, n: seq<Processo>, policy: KeyPolicy, t: int)
    requires n != [] && Admitted(SeenAfterHead(seen, n, policy), n[1..], t, policy)
    ensures Admitted(seen, n, t + 1, policy)
  {
    assert n[t + 1] == n[1..][t];
    forall m | 0 <= m < t + 1 ensures KeyOf(n[m], policy) != KeyOf(n[t + 1], policy) {
      if m > 0 { assert n[m] == n[1..][m - 1]; }
    }
  }

  /** An admitted position past the first is admitted, one nearer, in the tail. */
  lemma AdmittedInTail(seen: set<string>, n: seq<Processo>, policy: KeyPolicy, j: int)
    requires j > 0 && Admitted(seen, n, j, policy)
    ensures Admitted(SeenAfterHead(seen, n, policy), n[1..], j - 1, policy)
  {
    assert n[1..][j - 1] == n[j];
    forall m | 0 <= m < j - 1 ensures KeyOf(n[1..][m], policy) != KeyOf(n[j], policy) {
      assert n[1..][m] == n[m + 1];
    }
  }

  /** 1 when the first record of `n` is kept, 0 otherwise. */
  function HeadOffset(seen: set<string>, n: seq<Processo>, policy: KeyPolicy): nat
    requires n != []
  {
    if KeyOf(n[0], policy) != "" && KeyOf(n[0], policy) !in seen then 1 else 0
  }

  /** The `t`-th kept position of the tail is, one further on, the `(t + HeadOffset)`-th of the whole list. */
  lemma KeptIndexFromTail(seen: set<string>, n: seq<Processo>, policy: KeyPolicy, t: int, i: int)
    requires n != [] && i == t + HeadOffset(seen, n, policy)
    requires 0 <= t < |KeptIndices(SeenAfterHead(seen, n, policy), n[1..], policy)|
    ensures i < |KeptIndices(seen, n, policy)|
    ensures KeptIndices(seen, n, policy)[i] == KeptIndices(SeenAfterHead(seen, n, policy), n[1..], policy)[t] + 1
  {
    var off := HeadOffset(seen, n, policy);
    var pre: seq<nat> := if off == 1 then [0] else [];
    KeptIndicesCons(seen, n, policy, off);
    ShiftedAt(pre, KeptIndices(SeenAfterHead(seen, n, policy), n[1..], policy), off);
  }

  /** One step of `KeptAreAdmitted`: a kept position that comes from the tail is admitted when it is admitted there. */
  lemma KeptAdmittedStep(seen: set<string>, n: seq<Processo>, policy: KeyPolicy, t: int, i: int)
    requires n != [] && i == t + HeadOffset(seen, n, policy)
    requires 0 <= t < |KeptIndices(SeenAfterHead(seen, n, policy), n[1..], policy)|
    requires Admitted(SeenAfterHead(seen, n, policy), n[1..], KeptIndices(SeenAfterHead(seen, n, policy), n[1..], policy)[t], policy)
    ensures i < |KeptIndices(seen, n, policy)|
    ensures Admitted(seen, n, KeptIndices(seen, n, policy)[i], policy)
  {
    KeptIndexFromTail(seen, n, policy, t, i);
    AdmittedFromTail(seen, n, policy, KeptIndices(SeenAfterHead(seen, n, policy), n[1..], policy)[t]);
  }

  /** Every kept position is admitted. */
  lemma {:induction false} KeptAreAdmitted(seen: set<string>, n: seq<Processo>, policy: KeyPolicy)
    ensures forall i :: 0 <= i < |KeptIndices(seen, n, policy)| ==> Admitted(seen, n, KeptIndices(seen, n, policy)[i], policy)
    decreases |n|
  {
    if n != [] {
      KeptAreAdmitted(SeenAfterHead(seen, n, policy), n[1..], policy);
      var off := HeadOffset(seen, n, policy);
      KeptIndicesCons(seen, n, policy, off);
      var f := KeptIndices(seen, n, policy);
      forall i | 0 <= i < |f| ensures Admitted(seen, n, f[i], policy) {
        if i >= off {
          KeptAdmittedStep(seen, n, policy, i - off, i);
        } else {
          assert f[i] == 0;
        }
      }
    }
  }

  /** Every admitted position is kept. */
  lemma {:induction false} AdmittedAreKept(seen: set<string>, n: seq<Processo>, policy: KeyPolicy)
    ensures forall j :: Admitted(seen, n, j, policy) ==> j in KeptIndices(seen, n, policy)
    decreases |n|
  {
    if n != [] {
      var seen' := SeenAfterHead(seen, n, policy);
      AdmittedAreKept(seen', n[1..], policy);
      var off := HeadOffset(seen, n, policy);
      var rest := KeptIndices(seen', n[1..], policy);
      var f := KeptIndices(seen, n, policy);
      forall j | Admitted(seen, n, j, policy) ensures j in f {
        if j > 0 {
          AdmittedInTail(seen, n, policy, j);
          var t :| 0 <= t < |rest| && rest[t] == j - 1;
          KeptIndexFromTail(seen, n, policy, t, t + off);
        } else {
          KeptIndicesCons(seen, n, policy, off);
          assert f[0] == 0;
        }
      }
    }
  }

  /** `_adicionar_processos` on lists as values: `destino` extended by the new records it keeps. */
  function AddAll(destino: seq<Processo>, novos: seq<Processo>): seq<Processo> {
    destino + Keep(KeySet(destino, ByKey), novos, ByKey)
  }

  /** Adding keeps the destination as a prefix and the keys unique, and every kept key is non-empty. */
  lemma AddAllUnique(destino: seq<Processo>, novos: seq<Processo>)
    requires UniqueKeys(destino, ByKey)
    ensures UniqueKeys(AddAll(destino, novos), ByKey)
    ensures forall q :: q in AddAll(destino, novos) && q !in destino ==> q in novos && Key(q) != ""
  {
    var kept := Keep(KeySet(destino, ByKey), novos, ByKey);
    KeepSound(KeySet(destino, ByKey), novos, ByKey);
    var r := destino + kept;
    forall i, j | 0 <= i < j < |r| ensures KeyOf(r[i], ByKey) != KeyOf(r[j], ByKey) {
      if j >= |destino| {
        assert r[j] == kept[j - |destino|];
        if i >= |destino| {
          assert r[i] == kept[i - |destino|];
        } else {
          assert KeyOf(r[i], ByKey) in KeySet(destino, ByKey);
        }
      }
    }
  }

  /** Adding two batches one after the other is adding their concatenation at once. */
  lemma AddAllBatches(destino: seq<Processo>, a: seq<Processo>, b: seq<Processo>)
    ensures AddAll(AddAll(destino, a), b) == AddAll(destino, a + b)
  {
    var seen := KeySet(destino, ByKey);
    var ka := Keep(seen, a, ByKey);
    KeepConcat(seen, a, b, ByKey);
    KeySetConcat(destino, ka, ByKey);
  }

  /** The records added keep the order in which they arrive in `novos`, and they are exactly the admitted ones. */
  lemma AddAllInOrder(destino: seq<Processo>, novos: seq<Processo>)
    ensures destino <= AddAll(destino, novos)
    ensures var f := KeptIndices(KeySet(destino, ByKey), novos, ByKey);
      Picks(AddAll(destino, novos)[|destino|..], novos, f) &&
      forall j :: 0 <= j < |novos| ==> (j in f <==> Admitted(KeySet(destino, ByKey), novos, j, ByKey))
  {
    var seen := KeySet(destino, ByKey);
    KeepSubsequence(seen, novos, ByKey);
    KeptAreAdmitted(seen, novos, ByKey);
    AdmittedAreKept(seen, novos, ByKey);
    assert AddAll(destino, novos)[|destino|..] == Keep(seen, novos, ByKey);
  }

  /** A record whose key is already present is never added again. */
  lemma AddAllKeepsFirst(destino: seq<Processo>, novos: seq<Processo>, q: Processo)
    requires q in novos && Key(q) in KeySet(destino, ByKey)
    ensures forall p :: p in AddAll(destino, novos) && Key(p) == Key(q) ==> p in destino
  {
    KeepSound(KeySet(destino, ByKey), novos, ByKey);
    var kept := Keep(KeySet(destino, ByKey), novos, ByKey);
    assert forall p :: p in AddAll(destino, novos) ==> p in destino || p in kept;
  }

  /** The loop of `_adicionar_processos`, with the set `vistos` of keys already present. */
  method Adicionar(destino: seq<Processo>, novos: seq<Processo>) returns (out: seq<Processo>)
    ensures out == AddAll(destino, novos)
    ensures destino <= out
    ensures UniqueKeys(destino, ByKey) ==> UniqueKeys(out, ByKey)
  {
    if UniqueKeys(destino, ByKey) {
      AddAllUnique(destino, novos);
    }
    var vistos := set i | 0 <= i < |destino| :: Key(destino[i]);
    assert vistos == KeySet(destino, ByKey);
    out := destino;
    var i := 0;
    while i < |novos|
      invariant 0 <= i <= |novos|
      invariant AddAll(destino, novos) == out + Keep(vistos, novos[i..], ByKey)
    {
      var processo := novos[i];
      var chave := Key(processo);
      assert novos[i..][0] == processo && novos[i..][1..] == novos[i + 1..];
      if chave != "" && chave !in vistos {
        out := out + [processo];
        vistos := vistos + {chave};
      }
      i := i + 1;
    }
  }
}
