/** One transaction seen from an address: bounded sums, net value and counterparty edges. */
module BitcoinTx {
  import opened Common
  import opened Bytes
  import opened Sorting

  const MAX_MONEY: int := 21_000_000 * 100_000_000
  const MAX_IO: nat := 1000
  const FIRST_TIME: int := 1231006505
  const LAST_TIME: int := 253402300799

  /** A normalised address; the empty text stands for an output without one. */
  type Addr = seq<byte>

  datatype WireOutput = WireOutput(address: seq<byte>, value: Option<int>)

  datatype WireInput = WireInput(coinbase: Option<bool>, prevout: Option<WireOutput>)

  /** `validId` and `confirmed` are the two header checks that have no bearing on the rest. */
  datatype Wire = Wire(id: seq<byte>, validId: bool, confirmed: bool, time: Option<int>, inputs: seq<WireInput>,
      outputs: seq<WireOutput>)

  /** Address normalisation, a function of the text; `BitcoinAddress` in this repository. */
  type Normaliser = seq<byte> -> Option<Addr>

  datatype Coin = Coin(address: Addr, value: int)

  /** `normalizeOutput`. */
  function CoinOf(normal: Normaliser, o: WireOutput): Option<Coin> {
    if o.value.None? || o.value.value < 0 || o.value.value > MAX_MONEY then None
    else if o.address == [] then Some(Coin([], o.value.value))
    else match normal(o.address)
      case None => None
      case Some(a) => Some(Coin(a, o.value.value))
  }

  // ----- sums

  function Total(coins: seq<Coin>): int {
    if coins == [] then 0 else Total(coins[..|coins| - 1]) + coins[|coins| - 1].value
  }

  function TotalAt(coins: seq<Coin>, a: Addr): int {
    if coins == [] then 0
    else TotalAt(coins[..|coins| - 1], a) + (if coins[|coins| - 1].address == a then coins[|coins| - 1].value else 0)
  }

  predicate Pays(coins: seq<Coin>, a: Addr) { exists i | 0 <= i < |coins| :: coins[i].address == a }

  predicate Positive(coins: seq<Coin>) { forall i | 0 <= i < |coins| :: 0 <= coins[i].value <= MAX_MONEY }

  lemma CoinNext(coins: seq<Coin>, c: Coin)
    ensures Total(coins + [c]) == Total(coins) + c.value
    ensures forall a :: TotalAt(coins + [c], a) == TotalAt(coins, a) + (if c.address == a then c.value else 0)
    ensures forall a :: Pays(coins + [c], a) <==> Pays(coins, a) || c.address == a
  {
    var all := coins + [c];
    assert all[..|coins|] == coins;
    forall a ensures Pays(all, a) <==> Pays(coins, a) || c.address == a {
      if Pays(coins, a) {
        var i :| 0 <= i < |coins| && coins[i].address == a;
        assert all[i].address == a;
      }
      assert all[|coins|] == c;
    }
  }

  lemma {:induction false} TotalsBounded(coins: seq<Coin>, a: Addr)
    requires Positive(coins)
    ensures 0 <= TotalAt(coins, a) <= Total(coins)
    ensures !Pays(coins, a) ==> TotalAt(coins, a) == 0
    decreases |coins|
  {
    if coins != [] {
      var n := |coins| - 1;
      TotalsBounded(coins[..n], a);
      assert coins == coins[..n] + [coins[n]];
      CoinNext(coins[..n], coins[n]);
    }
  }

  lemma {:induction false} TotalPrefix(coins: seq<Coin>, k: nat)
    requires Positive(coins) && k <= |coins|
    ensures 0 <= Total(coins[..k]) <= Total(coins)
    decreases |coins|
  {
    if k == |coins| {
      assert coins[..k] == coins;
      TotalsBounded(coins, []);
    } else {
      TotalPrefix(coins[..|coins| - 1], k);
      assert coins[..|coins| - 1][..k] == coins[..k];
    }
  }

  /** A map from every address that is paid to what it is paid in all. */
  ghost predicate Sums(coins: seq<Coin>, m: map<Addr, int>) {
    forall a :: (a in m <==> a != [] && Pays(coins, a)) && (a in m ==> m[a] == TotalAt(coins, a))
  }

  function Credit(m: map<Addr, int>, c: Coin): map<Addr, int> {
    if c.address == [] then m else m[c.address := (if c.address in m then m[c.address] else 0) + c.value]
  }

  lemma CreditSums(coins: seq<Coin>, m: map<Addr, int>, c: Coin)
    requires Sums(coins, m) && Positive(coins)
    ensures Sums(coins + [c], Credit(m, c))
  {
    CoinNext(coins, c);
    forall a
      ensures a in Credit(m, c) <==> a != [] && Pays(coins + [c], a)
      ensures a in Credit(m, c) ==> Credit(m, c)[a] == TotalAt(coins + [c], a)
    {
      TotalsBounded(coins, a);
    }
  }

  // ----- the two loops

  /** The coins of well-formed outputs. */
  predicate AllCoins(normal: Normaliser, outputs: seq<WireOutput>) {
    forall i | 0 <= i < |outputs| :: CoinOf(normal, outputs[i]).Some?
  }

  function CoinsOf(normal: Normaliser, outputs: seq<WireOutput>): (coins: seq<Coin>)
    requires AllCoins(normal, outputs)
    ensures |coins| == |outputs| && forall i | 0 <= i < |coins| :: coins[i] == CoinOf(normal, outputs[i]).value
    ensures Positive(coins)
  {
    seq(|outputs|, i requires 0 <= i < |outputs| => CoinOf(normal, outputs[i]).value)
  }

  datatype Ledger = Ledger(sum: int, at: map<Addr, int>)

  /** The output loop: the running sum may never pass the money supply, so it cannot overflow. */
  method AddOutputs(normal: Normaliser, outputs: seq<WireOutput>) returns (r: Option<Ledger>)
    ensures r.Some? <==> AllCoins(normal, outputs) && Total(CoinsOf(normal, outputs)) <= MAX_MONEY
    ensures r.Some? ==> r.value.sum == Total(CoinsOf(normal, outputs)) && Sums(CoinsOf(normal, outputs), r.value.at)
  {
    var sum, at := 0, map[];
    ghost var coins: seq<Coin> := [];
    var i := 0;
    while i < |outputs|
      invariant 0 <= i <= |outputs| && AllCoins(normal, outputs[..i]) && coins == CoinsOf(normal, outputs[..i])
      invariant 0 <= sum == Total(coins) <= MAX_MONEY && Sums(coins, at)
    {
      var o := CoinOf(normal, outputs[i]);
      if o.None? {
        return None;
      }
      assert AllCoins(normal, outputs[..i + 1]);
      assert CoinsOf(normal, outputs[..i + 1]) == coins + [o.value];
      CoinNext(coins, o.value);
      if sum > MAX_MONEY - o.value.value {
        if AllCoins(normal, outputs) {
          assert CoinsOf(normal, outputs)[..i + 1] == coins + [o.value];
          TotalPrefix(CoinsOf(normal, outputs), i + 1);
        }
        return None;
      }
      CreditSums(coins, at, o.value);
      sum, at := sum + o.value.value, Credit(at, o.value);
      coins := coins + [o.value];
      i := i + 1;
    }
    assert outputs[..|outputs|] == outputs;
    r := Some(Ledger(sum, at));
  }

  predicate IsCoinbase(inputs: seq<WireInput>) { |inputs| == 1 && inputs[0] == WireInput(Some(true), None) }

  predicate Spends(inputs: seq<WireInput>) {
    forall i | 0 <= i < |inputs| :: inputs[i].coinbase == Some(false) && inputs[i].prevout.Some?
  }

  function Prevouts(inputs: seq<WireInput>): (outputs: seq<WireOutput>)
    requires Spends(inputs)
    ensures |outputs| == |inputs| && forall i | 0 <= i < |outputs| :: outputs[i] == inputs[i].prevout.value
  {
    seq(|inputs|, i requires 0 <= i < |inputs| => inputs[i].prevout.value)
  }

  /** Inputs that the code accepts: one coinbase input alone, or spends of well-formed coins within the supply. */
  predicate InputsOk(normal: Normaliser, inputs: seq<WireInput>) {
    || IsCoinbase(inputs)
    || (Spends(inputs) && AllCoins(normal, Prevouts(inputs)) && Total(CoinsOf(normal, Prevouts(inputs))) <= MAX_MONEY)
  }

  /** The coins an accepted transaction spends; none for a coinbase. */
  function Spent(normal: Normaliser, inputs: seq<WireInput>): (coins: seq<Coin>)
    requires InputsOk(normal, inputs)
    ensures Positive(coins)
  {
    if IsCoinbase(inputs) then [] else CoinsOf(normal, Prevouts(inputs))
  }

  datatype InputLedger = InputLedger(sum: int, at: map<Addr, int>, coinbase: bool, unknown: bool)

  /** What the input loop has established after `inputs`, when none of them is a coinbase. */
  ghost predicate Booked(normal: Normaliser, inputs: seq<WireInput>, l: InputLedger) {
    && Spends(inputs) && AllCoins(normal, Prevouts(inputs))
    && var coins := CoinsOf(normal, Prevouts(inputs));
    && 0 <= l.sum == Total(coins) <= MAX_MONEY && Sums(coins, l.at) && !l.coinbase && (l.unknown <==> Pays(coins, []))
  }

  lemma BookNext(normal: Normaliser, inputs: seq<WireInput>, l: InputLedger, v: WireInput, c: Coin)
    requires Booked(normal, inputs, l) && v.coinbase == Some(false) && v.prevout.Some? &&
              CoinOf(normal, v.prevout.value) == Some(c)
    ensures Spends(inputs + [v]) && AllCoins(normal, Prevouts(inputs + [v]))
    ensures CoinsOf(normal, Prevouts(inputs + [v])) == CoinsOf(normal, Prevouts(inputs)) + [c]
    ensures l.sum + c.value <= MAX_MONEY ==>
              Booked(normal, inputs + [v],
                  InputLedger(l.sum + c.value, Credit(l.at, c), false, l.unknown || c.address == []))
  {
    var coins := CoinsOf(normal, Prevouts(inputs));
    assert Prevouts(inputs + [v]) == Prevouts(inputs) + [v.prevout.value];
    assert CoinsOf(normal, Prevouts(inputs + [v])) == coins + [c];
    CoinNext(coins, c);
    CreditSums(coins, l.at, c);
  }

  lemma InputsPrefix(normal: Normaliser, inputs: seq<WireInput>, k: nat)
    requires k <= |inputs| && Spends(inputs) && AllCoins(normal, Prevouts(inputs)) &&
              Total(CoinsOf(normal, Prevouts(inputs))) <= MAX_MONEY
    ensures Spends(inputs[..k]) && AllCoins(normal, Prevouts(inputs[..k])) &&
              Total(CoinsOf(normal, Prevouts(inputs[..k]))) <= MAX_MONEY
  {
    assert Prevouts(inputs[..k]) == Prevouts(inputs)[..k];
    assert CoinsOf(normal, Prevouts(inputs[..k])) == CoinsOf(normal, Prevouts(inputs))[..k];
    TotalPrefix(CoinsOf(normal, Prevouts(inputs)), k);
  }

  /** An input that is no coin rules out the whole list, unless it is a coinbase alone. */
  lemma BadInput(normal: Normaliser, inputs: seq<WireInput>, i: nat)
    requires i < |inputs| && !IsCoinbase(inputs)
    requires inputs[i].coinbase != Some(false) || inputs[i].prevout.None? ||
              CoinOf(normal, inputs[i].prevout.value).None?
    ensures !InputsOk(normal, inputs)
  {
    if Spends(inputs) { assert Prevouts(inputs)[i] == inputs[i].prevout.value; }
  }

  /** One turn of the input loop for an input that is not a coinbase. */
  method AddInput(normal: Normaliser, ghost inputs: seq<WireInput>, ghost i: nat, v: WireInput, l: InputLedger)
    returns (r: Option<InputLedger>)
    requires i < |inputs| && v == inputs[i] && v.coinbase == Some(false) && Booked(normal, inputs[..i], l)
    ensures r.Some? ==> Booked(normal, inputs[..i + 1], r.value)
    ensures r.None? ==> !InputsOk(normal, inputs)
  {
    if v.prevout.None? {
      BadInput(normal, inputs, i);
      return None;
    }
    var o := CoinOf(normal, v.prevout.value);
    if o.None? {
      BadInput(normal, inputs, i);
      return None;
    }
    BookNext(normal, inputs[..i], l, v, o.value);
    assert inputs[..i + 1] == inputs[..i] + [v];
    if l.sum > MAX_MONEY - o.value.value {
      CoinNext(CoinsOf(normal, Prevouts(inputs[..i])), o.value);
      if InputsOk(normal, inputs) { InputsPrefix(normal, inputs, i + 1); }
      return None;
    }
    r := Some(InputLedger(l.sum + o.value.value, Credit(l.at, o.value), false, l.unknown || o.value.address == []));
  }

  /** The input loop. */
  method AddInputs(normal: Normaliser, inputs: seq<WireInput>) returns (r: Option<InputLedger>)
    requires inputs != []
    ensures r.Some? <==> InputsOk(normal, inputs)
    ensures r.Some? ==> r.value.sum == Total(Spent(normal, inputs)) && Sums(Spent(normal, inputs), r.value.at)
    ensures r.Some? ==>
              (r.value.coinbase <==> IsCoinbase(inputs)) && (r.value.unknown <==> Pays(Spent(normal, inputs), []))
  {
    var l := InputLedger(0, map[], false, false);
    var i := 0;
    while i < |inputs|
      invariant 0 <= i <= |inputs| && Booked(normal, inputs[..i], l) && (i > 0 ==> !IsCoinbase(inputs))
    {
      var v := inputs[i];
      if v.coinbase == Some(true) && |inputs| == 1 && v.prevout.None? {
        return Some(InputLedger(0, map[], true, false));
      }
      if v.coinbase != Some(false) {
        BadInput(normal, inputs, i);
        return None;
      }
      var next := AddInput(normal, inputs, i, v, l);
      if next.None? {
        return None;
      }
      l, i := next.value, i + 1;
    }
    assert inputs[..|inputs|] == inputs;
    r := Some(l);
  }

  // ----- the transaction as the target sees it

  datatype Direction = Own | Inbound | Outbound | Cooccurrence | Mixed

  /** `value` is the size of the target's net change, fees included. */
  datatype Tx = Tx(id: seq<byte>, time: Option<int>, direction: Direction, value: int)

  datatype Edge = Edge(address: Addr, direction: Direction, value: Option<int>)

  datatype Observed = Observed(tx: Tx, edges: seq<Edge>)

  /** Every spent coin has one known address. */
  ghost predicate SoleFunder(ins: seq<Coin>, f: Addr) {
    f != [] && Pays(ins, f) && forall i | 0 <= i < |ins| :: ins[i].address == f
  }

  /** `e` is what the transaction tells about another address. */
  ghost predicate IsEdge(ins: seq<Coin>, outs: seq<Coin>, coinbase: bool, target: Addr, e: Edge) {
    && !coinbase && e.address != [] && e.address != target
    && if SoleFunder(ins, target) then
         Pays(outs, e.address) && e == Edge(e.address, Outbound, Some(TotalAt(outs, e.address)))
       else if SoleFunder(ins, e.address) then
         Pays(outs, target) && e == Edge(e.address, Inbound, Some(TotalAt(outs, target)))
       else if exists f :: SoleFunder(ins, f) then false
       else
         && e == Edge(e.address, Cooccurrence, None)
         && ((Pays(outs, target) && Pays(ins, e.address)) || (Pays(ins, target) && Pays(outs, e.address)))
  }

  ghost predicate EdgeMap(ins: seq<Coin>, outs: seq<Coin>, coinbase: bool, target: Addr, m: map<Addr, Edge>) {
    && (forall a | a in m :: m[a].address == a)
    && forall e :: IsEdge(ins, outs, coinbase, target, e) <==> e.address in m && m[e.address] == e
  }

  lemma OneFunder(ins: seq<Coin>, at: map<Addr, int>, f: Addr)
    requires Sums(ins, at) && f in at
    ensures |at| == 1 && !Pays(ins, []) <==> SoleFunder(ins, f)
  {
    if |at| == 1 && !Pays(ins, []) {
      forall i | 0 <= i < |ins| ensures ins[i].address == f {
        assert Pays(ins, ins[i].address) && ins[i].address in at;
        OneKey(at, f, ins[i].address);
      }
    }
    if SoleFunder(ins, f) {
      assert at.Keys == {f};
      assert |at| == |at.Keys|;
    }
  }

  lemma OneKey(at: map<Addr, int>, a: Addr, b: Addr)
    requires |at| == 1 && a in at && b in at
    ensures a == b
  {
    var rest := at.Keys - {a};
    assert |rest| == 0;
    assert b == a || b in rest;
  }

  lemma FunderIs(ins: seq<Coin>, f: Addr, g: Addr)
    requires SoleFunder(ins, f) && SoleFunder(ins, g)
    ensures f == g
  {
    var i :| 0 <= i < |ins| && ins[i].address == f;
  }

  lemma OnlyFunder(ins: seq<Coin>, at: map<Addr, int>, from: Addr)
    requires Sums(ins, at) && |at| == 1 && !Pays(ins, []) && from in at
    ensures SoleFunder(ins, from) && forall g | SoleFunder(ins, g) :: g == from
  {
    OneFunder(ins, at, from);
    forall g | SoleFunder(ins, g) ensures g == from {
      FunderIs(ins, from, g);
    }
  }

  lemma NoFunder(ins: seq<Coin>, at: map<Addr, int>)
    requires Sums(ins, at) && (|at| != 1 || Pays(ins, []))
    ensures forall g :: !SoleFunder(ins, g)
  {
    forall g ensures !SoleFunder(ins, g) {
      if g in at { OneFunder(ins, at, g); }
    }
  }

  /** The edges of `normalizeTransaction`. */
  method Edges(ghost ins: seq<Coin>, ghost outs: seq<Coin>, inAt: map<Addr, int>, outAt: map<Addr, int>,
               coinbase: bool, unknown: bool, target: Addr) returns (m: map<Addr, Edge>)
    requires Sums(ins, inAt) && Sums(outs, outAt) && (unknown <==> Pays(ins, [])) && target != []
    ensures EdgeMap(ins, outs, coinbase, target, m)
  {
    m := map[];
    if |inAt| == 1 && !unknown && !coinbase {
      assert inAt.Keys != {};
      var from :| from in inAt;
      OnlyFunder(ins, inAt, from);
      if from == target {
        m := map a | a in outAt && a != target :: Edge(a, Outbound, Some(outAt[a]));
      } else if target in outAt {
        m := map[from := Edge(from, Inbound, Some(outAt[target]))];
      }
    } else if !coinbase {
      NoFunder(ins, inAt);
      if target in outAt {
        m := map a | a in inAt && a != target :: Edge(a, Cooccurrence, None);
      }
      if target in inAt {
        m := m + map a | a in outAt && a != target :: Edge(a, Cooccurrence, None);
      }
    }
  }

  predicate EdgeLess(a: Edge, b: Edge) { Less(a.address, b.address) }

  ghost predicate IsObserved(ins: seq<Coin>, outs: seq<Coin>, coinbase: bool, w: Wire, target: Addr, o: Observed) {
    var delta := TotalAt(outs, target) - TotalAt(ins, target);
    && o.tx == Tx(w.id, w.time,
                  if delta > 0 then Inbound else if delta < 0 then Outbound else Own,
                  if delta < 0 then -delta else delta)
    && Ascends(o.edges, EdgeLess)
    && forall e :: e in o.edges <==> IsEdge(ins, outs, coinbase, target, e)
  }

  predicate HeaderOk(w: Wire) {
    && w.validId && w.confirmed && 0 < |w.inputs| <= MAX_IO && 0 < |w.outputs| <= MAX_IO
    && (w.time.Some? ==> FIRST_TIME <= w.time.value <= LAST_TIME)
  }

  /** The transactions that are accepted for a target. */
  predicate Acceptable(normal: Normaliser, w: Wire, target: Addr) {
    && HeaderOk(w) && InputsOk(normal, w.inputs)
    && AllCoins(normal, w.outputs) && Total(CoinsOf(normal, w.outputs)) <= MAX_MONEY
    && (IsCoinbase(w.inputs) || Total(CoinsOf(normal, w.outputs)) <= Total(Spent(normal, w.inputs)))
    && (Pays(Spent(normal, w.inputs), target) || Pays(CoinsOf(normal, w.outputs), target))
  }

  function At(m: map<Addr, int>, a: Addr): int { if a in m then m[a] else 0 }

  lemma AtIs(coins: seq<Coin>, m: map<Addr, int>, a: Addr)
    requires Sums(coins, m) && Positive(coins) && a != []
    ensures At(m, a) == TotalAt(coins, a) && 0 <= At(m, a) <= Total(coins)
  {
    TotalsBounded(coins, a);
  }

  /** `normalizeTransaction`. */
  method Normalize(normal: Normaliser, w: Wire, target: Addr) returns (r: Option<Observed>)
    requires target != []
    ensures r.Some? <==> Acceptable(normal, w, target)
    ensures r.Some? ==>
              IsObserved(Spent(normal, w.inputs), CoinsOf(normal, w.outputs), IsCoinbase(w.inputs), w, target, r.value)
  {
    if !HeaderOk(w) {
      return None;
    }
    var l := AddInputs(normal, w.inputs);
    if l.None? {
      return None;
    }
    var out := AddOutputs(normal, w.outputs);
    if out.None? {
      return None;
    }
    ghost var ins, outs := Spent(normal, w.inputs), CoinsOf(normal, w.outputs);
    if !l.value.coinbase && out.value.sum > l.value.sum {
      return None;
    }
    if target !in l.value.at && target !in out.value.at {
      return None;
    }
    AtIs(ins, l.value.at, target);
    AtIs(outs, out.value.at, target);
    var delta := At(out.value.at, target) - At(l.value.at, target);
    var tx := Tx(w.id, w.time, Own, delta);
    if delta > 0 {
      tx := tx.(direction := Inbound);
    }
    if delta < 0 {
      tx := tx.(direction := Outbound, value := -delta);
    }
    var m := Edges(ins, outs, l.value.at, out.value.at, l.value.coinbase, l.value.unknown, target);
    var edges := Listed(ins, outs, l.value.coinbase, target, m);
    r := Some(Observed(tx, edges));
  }

  /** The edges in address order. */
  method Listed(ghost ins: seq<Coin>, ghost outs: seq<Coin>, coinbase: bool, target: Addr, m: map<Addr, Edge>)
    returns (edges: seq<Edge>)
    requires EdgeMap(ins, outs, coinbase, target, m)
    ensures Ascends(edges, EdgeLess) && forall e :: e in edges <==> IsEdge(ins, outs, coinbase, target, e)
  {
    LessOrder();
    var keys := SortedKeys(m.Keys, Less);
    edges := [];
    var i := 0;
    while i < |keys|
      invariant 0 <= i == |edges| <= |keys|
      invariant forall j | 0 <= j < i :: keys[j] in m && edges[j] == m[keys[j]]
    {
      assert keys[i] in keys;
      edges := edges + [m[keys[i]]];
      i := i + 1;
    }
    ListedAll(keys, m, edges);
  }

  lemma ListedAll(keys: seq<Addr>, m: map<Addr, Edge>, edges: seq<Edge>)
    requires Ascends(keys, Less) && forall k :: k in keys <==> k in m
    requires |edges| == |keys| && forall j | 0 <= j < |keys| :: keys[j] in m && edges[j] == m[keys[j]]
    requires forall a | a in m :: m[a].address == a
    ensures Ascends(edges, EdgeLess)
    ensures forall e :: e in edges <==> e.address in m && m[e.address] == e
  {
    forall i, j | 0 <= i < j < |edges| ensures EdgeLess(edges[i], edges[j]) {
      assert Less(keys[i], keys[j]);
    }
    forall e ensures e in edges <==> e.address in m && m[e.address] == e {
      if e.address in m && m[e.address] == e {
        assert e.address in keys;
        var j :| 0 <= j < |keys| && keys[j] == e.address;
        assert edges[j] == e;
      }
    }
  }

  // ----- conservation

  function EdgeTotal(edges: seq<Edge>): int {
    if edges == [] then 0
    else
      var e := edges[|edges| - 1];
      EdgeTotal(edges[..|edges| - 1]) + (if e.value.Some? then e.value.value else 0)
  }

  /** What `coins` pays to the listed addresses together. */
  function PaidTo(coins: seq<Coin>, list: seq<Addr>): int {
    if list == [] then 0 else PaidTo(coins, list[..|list| - 1]) + TotalAt(coins, list[|list| - 1])
  }

  lemma {:induction false} PaidNext(coins: seq<Coin>, c: Coin, list: seq<Addr>)
    requires NoDuplicates(list)
    ensures PaidTo(coins + [c], list) == PaidTo(coins, list) + (if c.address in list then c.value else 0)
    decreases |list|
  {
    if list != [] {
      var n := |list| - 1;
      PaidNext(coins, c, list[..n]);
      CoinNext(coins, c);
      assert list == list[..n] + [list[n]];
      assert list[n] !in list[..n];
    }
  }

  lemma {:induction false} NothingPaid(list: seq<Addr>)
    ensures PaidTo([], list) == 0
    decreases |list|
  {
    if list != [] { NothingPaid(list[..|list| - 1]); }
  }

  /** Every coin goes to exactly one of a list of distinct addresses that covers them all. */
  lemma {:induction false} AllPaid(coins: seq<Coin>, list: seq<Addr>)
    requires NoDuplicates(list) && forall a | Pays(coins, a) :: a in list
    ensures PaidTo(coins, list) == Total(coins)
    decreases |coins|
  {
    if coins == [] {
      NothingPaid(list);
    } else {
      var n := |coins| - 1;
      assert coins == coins[..n] + [coins[n]];
      CoinNext(coins[..n], coins[n]);
      assert Pays(coins, coins[n].address);
      AllPaid(coins[..n], list);
      PaidNext(coins[..n], coins[n], list);
    }
  }

  function Addresses(edges: seq<Edge>): (list: seq<Addr>)
    ensures |list| == |edges| && forall i | 0 <= i < |list| :: list[i] == edges[i].address
  {
    seq(|edges|, i requires 0 <= i < |edges| => edges[i].address)
  }

  lemma {:induction false} EdgesPaid(outs: seq<Coin>, edges: seq<Edge>)
    requires forall i | 0 <= i < |edges| :: edges[i].value == Some(TotalAt(outs, edges[i].address))
    ensures EdgeTotal(edges) == PaidTo(outs, Addresses(edges))
    decreases |edges|
  {
    if edges != [] {
      var n := |edges| - 1;
      EdgesPaid(outs, edges[..n]);
      assert Addresses(edges)[..n] == Addresses(edges[..n]);
    }
  }

  lemma {:induction false} AllFrom(coins: seq<Coin>, f: Addr)
    requires forall i | 0 <= i < |coins| :: coins[i].address == f
    ensures TotalAt(coins, f) == Total(coins)
    decreases |coins|
  {
    if coins != [] { AllFrom(coins[..|coins| - 1], f); }
  }

  /** The addresses an outgoing transaction pays: the edges', the target's own, and the unaddressed outputs. */
  lemma OutgoingList(ins: seq<Coin>, outs: seq<Coin>, w: Wire, target: Addr, o: Observed)
    requires target != [] && SoleFunder(ins, target) && IsObserved(ins, outs, false, w, target, o)
    ensures var list := Addresses(o.edges) + [target] + [[]];
            NoDuplicates(list) && forall a | Pays(outs, a) :: a in list
  {
    var edges := Addresses(o.edges);
    LessOrder();
    forall i | 0 <= i < |edges| ensures edges[i] != target && edges[i] != [] {
      assert o.edges[i] in o.edges;
    }
    forall i, j | 0 <= i < j < |edges| ensures edges[i] != edges[j] {
      assert EdgeLess(o.edges[i], o.edges[j]);
    }
    forall a | Pays(outs, a) && a != target && a != [] ensures a in edges {
      var e := Edge(a, Outbound, Some(TotalAt(outs, a)));
      assert IsEdge(ins, outs, false, target, e);
      var i :| 0 <= i < |o.edges| && o.edges[i] == e;
      assert edges[i] == a;
    }
  }

  /**
   Conservation.  When the target is the only known funder, its net value is what the edges show, what went
   to outputs without an address, and the fee, which is not negative.
   */
  lemma Conserved(normal: Normaliser, w: Wire, target: Addr, o: Observed)
    requires target != [] && Acceptable(normal, w, target) && !IsCoinbase(w.inputs)
    requires SoleFunder(Spent(normal, w.inputs), target)
    requires IsObserved(Spent(normal, w.inputs), CoinsOf(normal, w.outputs), false, w, target, o)
    ensures var ins, outs := Spent(normal, w.inputs), CoinsOf(normal, w.outputs);
            var fee := Total(ins) - Total(outs);
            fee >= 0 && o.tx.value == EdgeTotal(o.edges) + TotalAt(outs, []) + fee
            && o.tx.direction == if o.tx.value == 0 then Own else Outbound
  {
    var ins, outs := Spent(normal, w.inputs), CoinsOf(normal, w.outputs);
    var edges := Addresses(o.edges);
    OutgoingList(ins, outs, w, target, o);
    AllPaid(outs, edges + [target] + [[]]);
    assert (edges + [target] + [[]])[..|edges| + 1] == edges + [target];
    assert (edges + [target])[..|edges|] == edges;
    forall i | 0 <= i < |o.edges| ensures o.edges[i].value == Some(TotalAt(outs, o.edges[i].address)) {
      assert o.edges[i] in o.edges;
    }
    EdgesPaid(outs, o.edges);
    AllFrom(ins, target);
    TotalsBounded(outs, target);
  }
}
