/** The OpenRouter credential pool of services/aiService.ts: the keys read
    from the environment and the round-robin cursor `currentKeyIndex`, which
    is threaded explicitly through every call instead of living in a shared
    service object. */
module KeyRotation {
  import opened Base
  import Strings

  datatype KeyPool = KeyPool(keys: seq<string>, cursor: nat) {

    /** The cursor indexes a key, or stays at 0 while there are none. */
    predicate Valid() {
      if |keys| == 0 then cursor == 0 else cursor < |keys|
    }
  }

  /** The constructor: `OPENROUTER_API_KEYS?.split(',') || []`, cursor 0.
      A variable that is set but empty still yields one (empty) key. */
  function FromEnvironment(env: Option<string>): (p: KeyPool)
    ensures p.Valid() && p.cursor == 0
    ensures env.None? <==> |p.keys| == 0
    ensures env.Some? ==> Strings.Join(p.keys, ',') == env.value
    ensures forall i :: 0 <= i < |p.keys| ==> ',' !in p.keys[i]
    ensures env == Some("") ==> p.keys == [""]
  {
    match env
    case None => KeyPool([], 0)
    case Some(text) => KeyPool(Strings.Split(text, ','), 0)
  }

  /** The cursor after one step in a pool of `k` keys. */
  function Succ(c: nat, k: nat): nat {
    if c + 1 < k then c + 1 else 0
  }

  /** `getNextOpenRouterKey`: fails (the source throws) on an empty pool;
      otherwise hands out the key under the cursor and moves the cursor one
      place on, wrapping at the end of the list. */
  function NextKey(p: KeyPool): (r: Option<(string, KeyPool)>)
    requires p.Valid()
    ensures r.None? <==> |p.keys| == 0
    ensures r.Some? ==> r.value.0 == p.keys[p.cursor]
    ensures r.Some? ==> r.value.1.keys == p.keys && r.value.1.Valid()
    ensures r.Some? ==> r.value.1.cursor == (p.cursor + 1) % |p.keys|
    ensures r.Some? ==> r.value.1.cursor == Succ(p.cursor, |p.keys|)
  {
    if |p.keys| == 0 then None
    else
      SuccIsMod(p.cursor, |p.keys|);
      Some((p.keys[p.cursor], p.(cursor := (p.cursor + 1) % |p.keys|)))
  }

  /** `Math.min(3, this.openrouterKeys.length)`: the key attempts per model. */
  function AttemptsPerModel(keyCount: nat): (n: nat)
    ensures n <= 3 && n <= keyCount
    ensures keyCount > 0 ==> n > 0
    ensures keyCount >= 3 ==> n == 3
  {
    Min(3, keyCount)
  }

  /** The cursor after `t` steps from `c`: the key index used by the attempt
      `t` places after the cursor stood at `c`. */
  function Slot(c: nat, t: nat, k: nat): (i: nat)
    ensures c < k ==> i < k
    decreases t
  {
    if t == 0 then c else Slot(Succ(c, k), t - 1, k)
  }

  lemma MulAtLeast(d: nat, k: nat)
    requires d >= 1
    ensures d * k >= k
    decreases d
  {
    if d > 1 {
      MulAtLeast(d - 1, k);
      assert d * k == (d - 1) * k + k;
    }
  }

  /** Euclidean division is determined by its defining equation. */
  lemma DivModUnique(x: int, k: int, q: int, r: int)
    requires k > 0 && 0 <= r < k && x == q * k + r
    ensures x % k == r && x / k == q
  {
    var q' := x / k;
    var r' := x % k;
    assert x == q' * k + r';
    assert (q' - q) * k == r - r';
    if q' > q {
      MulAtLeast(q' - q, k);
    } else if q' < q {
      MulAtLeast(q - q', k);
    }
  }

  /** One step of the cursor is `(c + 1) % k`, the source's update. */
  lemma SuccIsMod(c: nat, k: nat)
    requires c < k
    ensures Succ(c, k) == (c + 1) % k
  {
    if c + 1 < k {
      DivModUnique(c + 1, k, 0, c + 1);
    } else {
      DivModUnique(c + 1, k, 1, 0);
    }
  }

  /** `t` steps of the cursor from `c` land on `(c + t) % k`. */
  lemma {:induction false} SlotIsMod(c: nat, t: nat, k: nat)
    requires c < k
    ensures Slot(c, t, k) == (c + t) % k
    decreases t
  {
    if t > 0 {
      var c' := Succ(c, k);
      SlotIsMod(c', t - 1, k);
      if c + 1 < k {
        assert c' + (t - 1) == c + t;
      } else {
        var q, r := (t - 1) / k, (t - 1) % k;
        assert t - 1 == q * k + r;
        assert (q + 1) * k == q * k + k;
        DivModUnique(c + t, k, q + 1, r);
      }
    }
  }

  /** Fairness of the rotation: from any valid cursor, the next `k` attempts
      reach every key of a `k`-key pool. */
  lemma EveryKeyWithinOneRound(cursor: nat, k: nat, i: nat)
    requires cursor < k && i < k
    ensures exists j :: 0 <= j < k && Slot(cursor, j, k) == i
  {
    if i >= cursor {
      SlotIsMod(cursor, i - cursor, k);
      DivModUnique(cursor + (i - cursor), k, 0, i);
    } else {
      var j := i + k - cursor;
      SlotIsMod(cursor, j, k);
      DivModUnique(cursor + j, k, 1, i);
    }
  }
}
