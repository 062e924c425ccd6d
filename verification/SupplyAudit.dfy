/** Fees, carry, rewards and penalties block by block, and the explorer's check of the total supply. */
module SupplyAudit {
  import opened Wrappers
  import opened Sums
  import opened Ledger

  const UNITS_IN_HEARTH := 1_0000_0000
  const GUARANTEED_MINER_REWARD := 2 * UNITS_IN_HEARTH
  const MAX_ADDRESS_REWARD := 2 * UNITS_IN_HEARTH
  const FULL_REWARD := 6 * UNITS_IN_HEARTH
  const DEPOSIT := 100_0000_0000

  /** What `n` conflicting endorsers lose together. */
  function Burned(n: nat): int { n * 100_0000_0000 }

  // ----- Shares

  /** `Fraction(dividend, divider)`: dividing first. */
  function Part(dividend: nat, divider: nat, amount: int): int
    requires divider > 0
  {
    amount / divider * dividend
  }

  /** The share of a fee that goes to the miner of its own block: two for every whole five. */
  function MinerFee(fee: nat): (share: nat)
    ensures share % 2 == 0 && 5 * share <= 2 * fee < 5 * share + 10
    ensures share <= fee
  {
    Part(2, 5, fee)
  }

  datatype Shares = Shares(miner: int, dao: int)

  function RewardShares(reward: nat, dao: Option<Address>): (shares: Shares)
    ensures shares.miner + shares.dao == reward && shares.dao >= 0
    ensures dao.None? || reward < 2_0000_0000 ==> shares.dao == 0
    ensures dao.Some? && 2_0000_0000 <= reward < 6_0000_0000 ==> 0 <= (reward - 2_0000_0000) - 2 * shares.dao <= 1
    ensures dao.Some? && reward >= 6_0000_0000 ==> shares.dao == 2_0000_0000
  {
    if reward < GUARANTEED_MINER_REWARD then Shares(reward, 0)
    else
      var addressReward := if reward < FULL_REWARD then Part(1, 2, reward - GUARANTEED_MINER_REWARD) else MAX_ADDRESS_REWARD;
      var daoReward := if dao.Some? then addressReward else 0;
      Shares(reward - daoReward, daoReward)
  }

  // ----- Transactions

  type Balances = map<Account, int>
  type Carry = map<Asset, int>

  datatype Move = Move(sender: Address, recipient: Address, asset: Asset, amount: nat)
  datatype Transaction = Transaction(moves: seq<Move>, payer: Address, feeAsset: Asset, fee: nat)

  function Add<K>(m: map<K, int>, k: K, v: int): map<K, int> { m[k := Get(m, k) + v] }

  function Take<K>(m: map<K, int>, k: K, v: int): map<K, int> { m[k := Get(m, k) - v] }

  function Moved(balances: Balances, moves: seq<Move>): Balances {
    if moves == [] then balances
    else
      var rest, m := Moved(balances, moves[..|moves| - 1]), moves[|moves| - 1];
      Add(Take(rest, Account(m.sender, m.asset), m.amount), Account(m.recipient, m.asset), m.amount)
  }

  /** What the transaction itself does: its transfers, and its whole fee off the payer. */
  function Spent(balances: Balances, tx: Transaction): Balances {
    Take(Moved(balances, tx.moves), Account(tx.payer, tx.feeAsset), tx.fee)
  }

  predicate Affordable(balances: Balances, tx: Transaction) {
    && Get(Spent(balances, tx), Account(tx.payer, tx.feeAsset)) >= 0
    && forall i :: 0 <= i < |tx.moves| ==> Get(Spent(balances, tx), Account(tx.moves[i].sender, tx.moves[i].asset)) >= 0
  }

  /** Balances and the carry collected so far in this block. */
  datatype Progress = Progress(balances: Balances, carry: Carry)

  function ApplyTx(p: Progress, miner: Address, tx: Transaction): Option<Progress> {
    if !Affordable(p.balances, tx) then None
    else Some(Progress(Add(Spent(p.balances, tx), Account(miner, tx.feeAsset), MinerFee(tx.fee)),
                       Add(p.carry, tx.feeAsset, tx.fee - MinerFee(tx.fee))))
  }

  /** A block's transactions in order; in a challenging block one that fails is elided instead of failing the block. */
  function ApplyTxs(p: Progress, miner: Address, txs: seq<Transaction>, hasChallenge: bool): Option<Progress> {
    if txs == [] then Some(p)
    else match ApplyTxs(p, miner, txs[..|txs| - 1], hasChallenge)
      case None => None
      case Some(before) =>
        match ApplyTx(before, miner, txs[|txs| - 1])
        case Some(after) => Some(after)
        case None => if hasChallenge then Some(before) else None
  }

  // ----- Blocks

  /** A block, with the indices its finalization voting reports as conflicting. */
  datatype Block = Block(miner: Address, txs: seq<Transaction>, hasChallenge: bool, conflicts: seq<nat>)

  datatype Meta = Meta(reward: nat, carry: Carry, totalHearth: int, conflicts: seq<nat>)
  datatype Node = Node(balances: Balances, metas: seq<Meta>)

  /** What the chain settings and the chain itself contribute to a new block. */
  datatype Context = Context(reward: nat, dao: Option<Address>, committed: seq<Address>)

  /** The miner is credited what the referenced block carried over, asset by asset. */
  function Carried(balances: Balances, miner: Address, carry: Carry): Balances {
    balances + map a | a in carry :: Account(miner, a) := Get(balances, Account(miner, a)) + carry[a]
  }

  /** Each conflicting endorser loses a deposit; an index outside the committed generators fails the block. */
  function Penalised(balances: Balances, conflicts: seq<nat>, committed: seq<Address>): Option<Balances> {
    if conflicts == [] then Some(balances)
    else match Penalised(balances, conflicts[..|conflicts| - 1], committed)
      case None => None
      case Some(before) =>
        var index := conflicts[|conflicts| - 1];
        if index >= |committed| then None else Some(Take(before, Account(committed[index], Hearth), DEPOSIT))
  }

  function Rewarded(balances: Balances, miner: Address, context: Context): Balances {
    var shares := RewardShares(context.reward, context.dao);
    var paid := Add(balances, Account(miner, Hearth), shares.miner);
    if context.dao.Some? && shares.dao > 0 then Add(paid, Account(context.dao.value, Hearth), shares.dao) else paid
  }

  function Last(metas: seq<Meta>): Meta
    requires metas != []
  {
    metas[|metas| - 1]
  }

  /** Balances before a block's transactions: reward, carry of the referenced block, penalties for its conflicts. */
  function Initial(node: Node, miner: Address, context: Context): Option<Balances>
    requires node.metas != []
  {
    var last := Last(node.metas);
    Penalised(Rewarded(Carried(node.balances, miner, last.carry), miner, context), last.conflicts, context.committed)
  }

  /** A block on top of the node's last one. */
  function Append(node: Node, block: Block, context: Context): Option<Node>
    requires node.metas != []
  {
    match Initial(node, block.miner, context)
    case None => None
    case Some(balances) =>
      match ApplyTxs(Progress(balances, map[]), block.miner, block.txs, block.hasChallenge)
      case None => None
      case Some(p) =>
        var total := Last(node.metas).totalHearth + context.reward - Burned(|Last(node.metas).conflicts|);
        Some(Node(p.balances, node.metas + [Meta(context.reward, p.carry, total, block.conflicts)]))
  }

  /** After genesis: its balances, no reward, nothing carried. */
  ghost predicate Start(node: Node, initial: int) {
    && |node.metas| == 1 && node.metas[0].reward == 0 && node.metas[0].carry == map[]
    && node.metas[0].totalHearth == initial && initial == BalanceTotal(node.balances, Hearth)
  }

  ghost predicate IsRun(nodes: seq<Node>, blocks: seq<Block>, contexts: seq<Context>, initial: int) {
    && |nodes| == |blocks| + 1 == |contexts| + 1 && Start(nodes[0], initial)
    && forall i :: 0 <= i < |blocks| ==> StepAt(nodes, blocks, contexts, i)
  }

  ghost predicate StepAt(nodes: seq<Node>, blocks: seq<Block>, contexts: seq<Context>, i: nat)
    requires i < |blocks| && |nodes| == |blocks| + 1 == |contexts| + 1
  {
    nodes[i].metas != [] && Append(nodes[i], blocks[i], contexts[i]) == Some(nodes[i + 1])
  }

  // ----- What each part does to an asset's total

  lemma AddTotal(m: Balances, k: Account, v: int, a: Asset)
    ensures BalanceTotal(Add(m, k, v), a) == BalanceTotal(m, a) + if k.asset == a then v else 0
    ensures BalanceTotal(Take(m, k, v), a) == BalanceTotal(m, a) - if k.asset == a then v else 0
  {
    BalanceTotalUpdate(m, k, Get(m, k) + v, a);
    BalanceTotalUpdate(m, k, Get(m, k) - v, a);
  }

  lemma {:induction false} MovedTotal(balances: Balances, moves: seq<Move>, a: Asset)
    ensures BalanceTotal(Moved(balances, moves), a) == BalanceTotal(balances, a)
    decreases |moves|
  {
    hide BalanceTotal;
    if moves != [] {
      var rest, m := Moved(balances, moves[..|moves| - 1]), moves[|moves| - 1];
      MovedTotal(balances, moves[..|moves| - 1], a);
      AddTotal(rest, Account(m.sender, m.asset), m.amount, a);
      AddTotal(Take(rest, Account(m.sender, m.asset), m.amount), Account(m.recipient, m.asset), m.amount, a);
    }
  }

  /** What a block has of an asset while its transactions are applied. */
  ghost function Held(p: Progress, a: Asset): int { BalanceTotal(p.balances, a) + Get(p.carry, a) }

  /** A fee splits into the miner's share and the carry with nothing lost. */
  lemma TxKeeps(p: Progress, miner: Address, tx: Transaction, a: Asset)
    requires ApplyTx(p, miner, tx).Some?
    ensures Held(ApplyTx(p, miner, tx).value, a) == Held(p, a)
  {
    hide BalanceTotal, MinerFee;
    MovedTotal(p.balances, tx.moves, a);
    AddTotal(Moved(p.balances, tx.moves), Account(tx.payer, tx.feeAsset), tx.fee, a);
    AddTotal(Spent(p.balances, tx), Account(miner, tx.feeAsset), MinerFee(tx.fee), a);
  }

  lemma {:induction false} TxsKeep(p: Progress, miner: Address, txs: seq<Transaction>, hasChallenge: bool, a: Asset)
    requires ApplyTxs(p, miner, txs, hasChallenge).Some?
    ensures Held(ApplyTxs(p, miner, txs, hasChallenge).value, a) == Held(p, a)
    decreases |txs|
  {
    hide Held, ApplyTx;
    if txs != [] {
      var before := ApplyTxs(p, miner, txs[..|txs| - 1], hasChallenge).value;
      TxsKeep(p, miner, txs[..|txs| - 1], hasChallenge, a);
      if ApplyTx(before, miner, txs[|txs| - 1]).Some? {
        TxKeeps(before, miner, txs[|txs| - 1], a);
      }
    }
  }

  lemma CarriedTotal(balances: Balances, miner: Address, carry: Carry, a: Asset)
    ensures BalanceTotal(Carried(balances, miner, carry), a) == BalanceTotal(balances, a) + Get(carry, a)
  {
    var after, mine := Carried(balances, miner, carry), Account(miner, a);
    var before := (k: Account) => if k.asset == a then Get(balances, k) else 0;
    var later := (k: Account) => if k.asset == a then Get(after, k) else 0;
    if a in carry {
      SumUpdate(balances.Keys, before, later, mine);
      SumExtend(balances.Keys + {mine}, after.Keys, later);
    } else {
      SumSame(balances.Keys, before, later);
      SumExtend(balances.Keys, after.Keys, later);
    }
  }

  function OfHearth(a: Asset, amount: int): int { if a == Hearth then amount else 0 }

  lemma RewardedTotal(balances: Balances, miner: Address, context: Context, a: Asset)
    ensures BalanceTotal(Rewarded(balances, miner, context), a) == BalanceTotal(balances, a) + OfHearth(a, context.reward)
  {
    var shares := RewardShares(context.reward, context.dao);
    hide BalanceTotal, RewardShares;
    var paid := Add(balances, Account(miner, Hearth), shares.miner);
    AddTotal(balances, Account(miner, Hearth), shares.miner, a);
    if context.dao.Some? {
      AddTotal(paid, Account(context.dao.value, Hearth), shares.dao, a);
    }
  }

  lemma {:induction false} PenalisedTotal(balances: Balances, conflicts: seq<nat>, committed: seq<Address>, a: Asset)
    requires Penalised(balances, conflicts, committed).Some?
    ensures BalanceTotal(Penalised(balances, conflicts, committed).value, a)
         == BalanceTotal(balances, a) - OfHearth(a, Burned(|conflicts|))
    decreases |conflicts|
  {
    hide BalanceTotal;
    if conflicts != [] {
      var n := |conflicts| - 1;
      PenalisedTotal(balances, conflicts[..n], committed, a);
      AddTotal(Penalised(balances, conflicts[..n], committed).value, Account(committed[conflicts[n]], Hearth), DEPOSIT, a);
    }
  }

  // ----- Whole runs

  /** Everything there is of an asset between blocks. */
  ghost function Books(node: Node, a: Asset): int
    requires node.metas != []
  {
    BalanceTotal(node.balances, a) + Get(Last(node.metas).carry, a)
  }

  /** A block adds its reward and burns the deposits of the conflicts reported before it, and nothing else. */
  lemma BlockKeeps(node: Node, block: Block, context: Context, a: Asset)
    requires node.metas != [] && Append(node, block, context).Some?
    ensures Books(Append(node, block, context).value, a)
         == Books(node, a) + OfHearth(a, context.reward - 100_0000_0000 * |Last(node.metas).conflicts|)
  {
    hide BalanceTotal, ApplyTxs, Carried, Rewarded, Penalised, OfHearth;
    InitialTotal(node, block.miner, context, a);
    var balances := Initial(node, block.miner, context).value;
    TxsKeep(Progress(balances, map[]), block.miner, block.txs, block.hasChallenge, a);
  }

  lemma InitialTotal(node: Node, miner: Address, context: Context, a: Asset)
    requires node.metas != [] && Initial(node, miner, context).Some?
    ensures BalanceTotal(Initial(node, miner, context).value, a)
         == Books(node, a) + OfHearth(a, context.reward - 100_0000_0000 * |Last(node.metas).conflicts|)
  {
    hide BalanceTotal, Carried, Rewarded, Penalised;
    var last := Last(node.metas);
    var carried := Carried(node.balances, miner, last.carry);
    CarriedTotal(node.balances, miner, last.carry, a);
    RewardedTotal(carried, miner, context, a);
    PenalisedTotal(Rewarded(carried, miner, context), last.conflicts, context.committed, a);
  }

  function Rewards(metas: seq<Meta>): int {
    if metas == [] then 0 else Rewards(metas[..|metas| - 1]) + metas[|metas| - 1].reward
  }

  /** Conflicts reported by all blocks. */
  function Conflicts(metas: seq<Meta>): nat {
    if metas == [] then 0 else Conflicts(metas[..|metas| - 1]) + |metas[|metas| - 1].conflicts|
  }

  /** Conflicts that a later block has made someone pay for. */
  function Penalties(metas: seq<Meta>): nat
    requires metas != []
  {
    Conflicts(metas[..|metas| - 1])
  }

  /** Balances and the last carry make up the initial supply and all rewards less all penalties; so does the total stored
    * with the last block.
    */
  ghost predicate Sound(node: Node, initial: int) {
    && node.metas != []
    && Books(node, Hearth) == initial + Rewards(node.metas) - 100_0000_0000 * Penalties(node.metas)
    && Last(node.metas).totalHearth == Books(node, Hearth)
  }

  lemma StartSound(node: Node, initial: int)
    requires Start(node, initial)
    ensures Sound(node, initial)
  {
    hide BalanceTotal;
    assert node.metas[..0] == [];
    assert Rewards(node.metas) == 0 && Penalties(node.metas) == 0;
  }

  lemma StepSound(node: Node, block: Block, context: Context, initial: int)
    requires Sound(node, initial) && Append(node, block, context).Some?
    ensures Sound(Append(node, block, context).value, initial)
  {
    hide Books;
    BlockKeeps(node, block, context, Hearth);
    MetasGrow(node, block, context);
    hide Append, Rewards, Penalties, Last;
  }

  /** Every node of every run is sound. */
  lemma {:induction false} SupplyKept(nodes: seq<Node>, blocks: seq<Block>, contexts: seq<Context>, initial: int, i: nat)
    requires IsRun(nodes, blocks, contexts, initial) && i < |nodes|
    ensures Sound(nodes[i], initial)
    decreases i
  {
    hide Sound, Append, Start;
    if i == 0 {
      StartSound(nodes[0], initial);
    } else {
      SupplyKept(nodes, blocks, contexts, initial, i - 1);
      assert StepAt(nodes, blocks, contexts, i - 1);
      StepSound(nodes[i - 1], blocks[i - 1], contexts[i - 1], initial);
    }
  }

  lemma MetasGrow(node: Node, block: Block, context: Context)
    requires node.metas != [] && Append(node, block, context).Some?
    ensures var after := Append(node, block, context).value;
            && after.metas != [] && Rewards(after.metas) == Rewards(node.metas) + context.reward
            && Penalties(after.metas) == Penalties(node.metas) + |Last(node.metas).conflicts|
            && Last(after.metas).totalHearth == Last(node.metas).totalHearth + context.reward - Burned(|Last(node.metas).conflicts|)
  {
    hide ApplyTxs, Initial;
    var after := Append(node, block, context).value;
    assert after.metas[..|after.metas| - 1] == node.metas;
  }

  // ----- Who gets what

  /** What transfers take from an account, and what they bring it. */
  function SentFrom(moves: seq<Move>, k: Account): nat {
    if moves == [] then 0
    else
      var m := moves[|moves| - 1];
      SentFrom(moves[..|moves| - 1], k) + if Account(m.sender, m.asset) == k then m.amount else 0
  }

  function SentTo(moves: seq<Move>, k: Account): nat {
    if moves == [] then 0
    else
      var m := moves[|moves| - 1];
      SentTo(moves[..|moves| - 1], k) + if Account(m.recipient, m.asset) == k then m.amount else 0
  }

  lemma {:induction false} MovedAt(balances: Balances, moves: seq<Move>, k: Account)
    ensures Get(Moved(balances, moves), k) == Get(balances, k) - SentFrom(moves, k) + SentTo(moves, k)
    decreases |moves|
  {
    if moves != [] {
      MovedAt(balances, moves[..|moves| - 1], k);
    }
  }

  lemma {:induction false} NotASender(moves: seq<Move>, k: Account)
    requires forall i :: 0 <= i < |moves| ==> Account(moves[i].sender, moves[i].asset) != k
    ensures SentFrom(moves, k) == 0
    decreases |moves|
  {
    if moves != [] {
      NotASender(moves[..|moves| - 1], k);
    }
  }

  /** What is left of an account after a transaction, before the miner's share. */
  function LeftAt(balances: Balances, tx: Transaction, k: Account): int {
    Get(balances, k) - SentFrom(tx.moves, k) + SentTo(tx.moves, k) - if k == Account(tx.payer, tx.feeAsset) then tx.fee else 0
  }

  lemma SpentAt(balances: Balances, tx: Transaction, k: Account)
    ensures Get(Spent(balances, tx), k) == LeftAt(balances, tx, k)
  {
    MovedAt(balances, tx.moves, k);
    hide Moved, SentFrom, SentTo;
  }

  /** With nothing overdrawn before it, a transaction is accepted exactly if its transfers and its fee overdraw no account. */
  lemma TxAccepted(p: Progress, miner: Address, tx: Transaction)
    requires forall k :: Get(p.balances, k) >= 0
    ensures ApplyTx(p, miner, tx).Some? <==> forall k :: LeftAt(p.balances, tx, k) >= 0
  {
    hide Spent, MinerFee, LeftAt;
    assert ApplyTx(p, miner, tx).Some? <==> Affordable(p.balances, tx);
    if Affordable(p.balances, tx) {
      forall k ensures LeftAt(p.balances, tx, k) >= 0 {
        SpentAt(p.balances, tx, k);
        StaysUp(p.balances, tx, k);
      }
    }
    if forall k :: LeftAt(p.balances, tx, k) >= 0 {
      forall k ensures Get(Spent(p.balances, tx), k) >= 0 {
        SpentAt(p.balances, tx, k);
        assert LeftAt(p.balances, tx, k) >= 0;
      }
    }
  }

  lemma StaysUp(balances: Balances, tx: Transaction, k: Account)
    requires Affordable(balances, tx) && Get(balances, k) >= 0
    ensures Get(Spent(balances, tx), k) >= 0
  {
    SpentAt(balances, tx, k);
    if k != Account(tx.payer, tx.feeAsset) && forall i :: 0 <= i < |tx.moves| ==> Account(tx.moves[i].sender, tx.moves[i].asset) != k {
      NotASender(tx.moves, k);
    }
    hide Spent;
  }

  predicate Party(tx: Transaction, who: Address) {
    tx.payer == who || exists i :: 0 <= i < |tx.moves| && (tx.moves[i].sender == who || tx.moves[i].recipient == who)
  }

  lemma {:induction false} MovedBystander(balances: Balances, moves: seq<Move>, k: Account)
    requires forall i :: 0 <= i < |moves| ==> moves[i].sender != k.owner && moves[i].recipient != k.owner
    ensures Get(Moved(balances, moves), k) == Get(balances, k)
    decreases |moves|
  {
    if moves != [] {
      MovedBystander(balances, moves[..|moves| - 1], k);
    }
  }

  /** The transactions of a block that were applied, elided ones left out. */
  function Applied(p: Progress, miner: Address, txs: seq<Transaction>, hasChallenge: bool): seq<Transaction> {
    if txs == [] then []
    else
      var n := |txs| - 1;
      var rest := Applied(p, miner, txs[..n], hasChallenge);
      match ApplyTxs(p, miner, txs[..n], hasChallenge)
      case Some(before) => if ApplyTx(before, miner, txs[n]).Some? then rest + [txs[n]] else rest
      case None => rest
  }

  function MinerFees(txs: seq<Transaction>, a: Asset): nat {
    if txs == [] then 0
    else MinerFees(txs[..|txs| - 1], a) + if txs[|txs| - 1].feeAsset == a then MinerFee(txs[|txs| - 1].fee) else 0
  }

  function Fees(txs: seq<Transaction>, a: Asset): nat {
    if txs == [] then 0 else Fees(txs[..|txs| - 1], a) + if txs[|txs| - 1].feeAsset == a then txs[|txs| - 1].fee else 0
  }

  lemma FeesSnoc(txs: seq<Transaction>, tx: Transaction, a: Asset)
    ensures MinerFees(txs + [tx], a) == MinerFees(txs, a) + if tx.feeAsset == a then MinerFee(tx.fee) else 0
    ensures Fees(txs + [tx], a) == Fees(txs, a) + if tx.feeAsset == a then tx.fee else 0
  {
    assert (txs + [tx])[..|txs|] == txs;
  }

  lemma TxPays(p: Progress, miner: Address, tx: Transaction, k: Account)
    requires ApplyTx(p, miner, tx).Some?
    ensures var after := ApplyTx(p, miner, tx).value;
            && Get(after.carry, k.asset) == Get(p.carry, k.asset) + (if tx.feeAsset == k.asset then tx.fee - MinerFee(tx.fee) else 0)
            && (!Party(tx, k.owner) ==>
                  Get(after.balances, k) == Get(p.balances, k) + if k == Account(miner, tx.feeAsset) then MinerFee(tx.fee) else 0)
  {
    hide MinerFee;
    if !Party(tx, k.owner) {
      MovedBystander(p.balances, tx.moves, k);
    }
    hide Moved;
  }

  /** The carry is what the applied transactions' fees leave after the miner's per-transaction shares. */
  lemma {:induction false} TxsCarry(p: Progress, miner: Address, txs: seq<Transaction>, hasChallenge: bool, a: Asset)
    requires ApplyTxs(p, miner, txs, hasChallenge).Some?
    ensures var applied := Applied(p, miner, txs, hasChallenge);
            Get(ApplyTxs(p, miner, txs, hasChallenge).value.carry, a) == Get(p.carry, a) + Fees(applied, a) - MinerFees(applied, a)
    decreases |txs|
  {
    if txs != [] {
      var n := |txs| - 1;
      TxsCarry(p, miner, txs[..n], hasChallenge, a);
      var before, applied := ApplyTxs(p, miner, txs[..n], hasChallenge).value, Applied(p, miner, txs[..n], hasChallenge);
      hide ApplyTx, Fees, MinerFees, MinerFee, Party, Get;
      if ApplyTx(before, miner, txs[n]).Some? {
        TxPays(before, miner, txs[n], Account(miner, a));
        FeesSnoc(applied, txs[n], a);
      }
    }
  }

  /** Nothing is elided unless the block carries a challenge, and then nothing fails it: what is left out could not be paid. */
  lemma {:induction false} ElidedOnly(p: Progress, miner: Address, txs: seq<Transaction>, hasChallenge: bool)
    ensures hasChallenge ==> ApplyTxs(p, miner, txs, hasChallenge).Some?
    ensures !hasChallenge && ApplyTxs(p, miner, txs, hasChallenge).Some? ==> Applied(p, miner, txs, hasChallenge) == txs
    ensures !hasChallenge ==>
              (ApplyTxs(p, miner, txs, hasChallenge).Some? <==>
               forall i :: 0 <= i < |txs| ==> FitsAt(p, miner, txs, i))
    decreases |txs|
  {
    if txs != [] {
      var n := |txs| - 1;
      ElidedOnly(p, miner, txs[..n], hasChallenge);
      hide ApplyTx;
      assert txs == txs[..n] + [txs[n]];
      if !hasChallenge {
        forall i | 0 <= i < n ensures FitsAt(p, miner, txs[..n], i) == FitsAt(p, miner, txs, i) {
          assert txs[..n][..i] == txs[..i];
        }
        assert ApplyTxs(p, miner, txs, false).Some? <==> ApplyTxs(p, miner, txs[..n], false).Some? && FitsAt(p, miner, txs, n);
        hide FitsAt, ApplyTxs;
      }
    }
  }

  /** A transaction can be paid for after those before it, and everyone it takes from stays at zero or above. */
  ghost predicate FitsAt(p: Progress, miner: Address, txs: seq<Transaction>, i: nat)
    requires i < |txs|
  {
    match ApplyTxs(p, miner, txs[..i], false)
    case None => false
    case Some(before) => ApplyTx(before, miner, txs[i]).Some?
  }

  /** A bystander's balance changes only if it is the miner's, by those shares. */
  lemma {:induction false} TxsPay(p: Progress, miner: Address, txs: seq<Transaction>, hasChallenge: bool, k: Account)
    requires ApplyTxs(p, miner, txs, hasChallenge).Some?
    requires forall i :: 0 <= i < |txs| ==> !Party(txs[i], k.owner)
    ensures var applied := Applied(p, miner, txs, hasChallenge);
            Get(ApplyTxs(p, miner, txs, hasChallenge).value.balances, k)
            == Get(p.balances, k) + if k.owner == miner then MinerFees(applied, k.asset) else 0
    decreases |txs|
  {
    if txs != [] {
      var n := |txs| - 1;
      TxsPay(p, miner, txs[..n], hasChallenge, k);
      var before, applied := ApplyTxs(p, miner, txs[..n], hasChallenge).value, Applied(p, miner, txs[..n], hasChallenge);
      hide ApplyTx, Fees, MinerFees, MinerFee, Party, Get;
      if ApplyTx(before, miner, txs[n]).Some? {
        TxPays(before, miner, txs[n], k);
        FeesSnoc(applied, txs[n], k.asset);
      }
    }
  }

  /** How often the conflicts point at an address. */
  function Strikes(conflicts: seq<nat>, committed: seq<Address>, who: Address): nat {
    if conflicts == [] then 0
    else
      var index := conflicts[|conflicts| - 1];
      Strikes(conflicts[..|conflicts| - 1], committed, who)
      + if index < |committed| && committed[index] == who then 1 else 0
  }

  lemma {:induction false} PenalisedAt(balances: Balances, conflicts: seq<nat>, committed: seq<Address>, k: Account)
    requires Penalised(balances, conflicts, committed).Some?
    ensures Get(Penalised(balances, conflicts, committed).value, k)
         == Get(balances, k) - OfHearth(k.asset, Burned(Strikes(conflicts, committed, k.owner)))
    decreases |conflicts|
  {
    if conflicts != [] {
      PenalisedAt(balances, conflicts[..|conflicts| - 1], committed, k);
    }
  }

  /** What an account gets before a block's transactions: as its miner the reward share and the whole carry of the block
    * before, as the DAO its share; and it loses a deposit for each conflict it is charged with.
    */
  lemma InitialPays(node: Node, miner: Address, context: Context, k: Account)
    requires node.metas != [] && Initial(node, miner, context).Some?
    ensures Get(Initial(node, miner, context).value, k)
         == Get(node.balances, k) + CarryTo(Last(node.metas), miner, k)
            + OfHearth(k.asset, RewardTo(miner, context, k.owner)) - OfHearth(k.asset, PenaltyOf(Last(node.metas), context, k.owner))
  {
    var last := Last(node.metas);
    RewardedCarry(node.balances, miner, last, context, k);
    PenalisedAt(Rewarded(Carried(node.balances, miner, last.carry), miner, context), last.conflicts, context.committed, k);
    hide RewardTo, Penalised, Strikes, Burned, Carried, Rewarded, Get, OfHearth, Last, CarryTo;
  }

  function CarryTo(last: Meta, miner: Address, k: Account): int { if k.owner == miner then Get(last.carry, k.asset) else 0 }

  function PenaltyOf(last: Meta, context: Context, who: Address): int {
    Burned(Strikes(last.conflicts, context.committed, who))
  }

  lemma RewardedCarry(balances: Balances, miner: Address, last: Meta, context: Context, k: Account)
    ensures Get(Rewarded(Carried(balances, miner, last.carry), miner, context), k)
         == Get(balances, k) + CarryTo(last, miner, k) + OfHearth(k.asset, RewardTo(miner, context, k.owner))
  {
    CarriedAt(balances, miner, last.carry, k);
    RewardedAt(Carried(balances, miner, last.carry), miner, context, k);
    hide RewardTo, Carried, Rewarded, Get, OfHearth;
  }

  /** What of a block's reward goes to an address. */
  function RewardTo(miner: Address, context: Context, who: Address): int {
    var shares := RewardShares(context.reward, context.dao);
    (if who == miner then shares.miner else 0) + (if context.dao == Some(who) then shares.dao else 0)
  }

  lemma RewardedAt(balances: Balances, miner: Address, context: Context, k: Account)
    ensures Get(Rewarded(balances, miner, context), k) == Get(balances, k) + OfHearth(k.asset, RewardTo(miner, context, k.owner))
  {
    hide RewardShares;
  }

  lemma CarriedAt(balances: Balances, miner: Address, carry: Carry, k: Account)
    ensures Get(Carried(balances, miner, carry), k) == Get(balances, k) + if k.owner == miner then Get(carry, k.asset) else 0
  {
    if k.owner == miner && k.asset in carry {
      assert k == Account(miner, k.asset);
    }
  }

  /** A block's whole effect on an account that is no party to its transactions. */
  lemma BlockPays(node: Node, block: Block, context: Context, k: Account)
    requires node.metas != [] && Append(node, block, context).Some?
    requires forall i :: 0 <= i < |block.txs| ==> !Party(block.txs[i], k.owner)
    ensures Get(Append(node, block, context).value.balances, k)
         == Get(node.balances, k) + CarryTo(Last(node.metas), block.miner, k)
            + OfHearth(k.asset, RewardTo(block.miner, context, k.owner)) - OfHearth(k.asset, PenaltyOf(Last(node.metas), context, k.owner))
            + if k.owner == block.miner then MinerFees(AppliedIn(node, block, context), k.asset) else 0
    ensures Get(Last(Append(node, block, context).value.metas).carry, k.asset)
         == Fees(AppliedIn(node, block, context), k.asset) - MinerFees(AppliedIn(node, block, context), k.asset)
  {
    var start := Begun(node, block, context);
    var p := ApplyTxs(start, block.miner, block.txs, block.hasChallenge).value;
    assert Append(node, block, context).value.balances == p.balances && Last(Append(node, block, context).value.metas).carry == p.carry;
    hide Append, Last;
    TxsPay(start, block.miner, block.txs, block.hasChallenge, k);
    TxsCarry(start, block.miner, block.txs, block.hasChallenge, k.asset);
    InitialPays(node, block.miner, context, k);
    assert Get(start.carry, k.asset) == 0;
    hide Initial, ApplyTxs, Applied, MinerFees, Fees, Party, OfHearth, RewardTo, PenaltyOf, CarryTo, Get;
  }

  /** A block before its first transaction. */
  function Begun(node: Node, block: Block, context: Context): Progress
    requires node.metas != [] && Initial(node, block.miner, context).Some?
  {
    Progress(Initial(node, block.miner, context).value, map[])
  }

  /** The transactions a block applies on top of a node. */
  function AppliedIn(node: Node, block: Block, context: Context): seq<Transaction>
    requires node.metas != [] && Initial(node, block.miner, context).Some?
  {
    Applied(Begun(node, block, context), block.miner, block.txs, block.hasChallenge)
  }

  // ----- The explorer's check

  /** A balance record of the store, for one account of the audited asset. */
  datatype Record = Record(owner: Address, balance: int)

  function RecordTotal(records: seq<Record>): int {
    if records == [] then 0 else RecordTotal(records[..|records| - 1]) + records[|records| - 1].balance
  }

  /** The store's records of HRTH balances: each account once. */
  ghost predicate Lists(records: seq<Record>, balances: Balances) {
    && (forall i, j :: 0 <= i < j < |records| ==> records[i].owner != records[j].owner)
    && (forall i :: 0 <= i < |records| ==> records[i].balance == Get(balances, Account(records[i].owner, Hearth)))
    && (forall k :: k in balances && k.asset == Hearth ==> exists i :: 0 <= i < |records| && records[i].owner == k.owner)
  }

  function OwnersOf(records: seq<Record>): set<Account> {
    set i | 0 <= i < |records| :: Account(records[i].owner, Hearth)
  }

  lemma {:induction false} RecordsSum(records: seq<Record>, f: Account -> int)
    requires forall i, j :: 0 <= i < j < |records| ==> records[i].owner != records[j].owner
    requires forall i :: 0 <= i < |records| ==> records[i].balance == f(Account(records[i].owner, Hearth))
    ensures RecordTotal(records) == Sum(OwnersOf(records), f)
    decreases |records|
  {
    if records != [] {
      var n := |records| - 1;
      var k := Account(records[n].owner, Hearth);
      RecordsSum(records[..n], f);
      assert OwnersOf(records) == OwnersOf(records[..n]) + {k};
      assert OwnersOf(records) - {k} == OwnersOf(records[..n]);
      SumRemove(OwnersOf(records), f, k);
    }
  }

  lemma RecordsTotal(records: seq<Record>, balances: Balances)
    requires Lists(records, balances)
    ensures RecordTotal(records) == BalanceTotal(balances, Hearth)
  {
    var f := (k: Account) => if k.asset == Hearth then Get(balances, k) else 0;
    RecordsSum(records, f);
    SumExtend(OwnersOf(records), OwnersOf(records) + balances.Keys, f);
    SumExtend(balances.Keys, OwnersOf(records) + balances.Keys, f);
  }

  /** The supply check: what the records and the last carry add up to, what was issued, and the stored total all agree. */
  method Audit(records: seq<Record>, metas: seq<Meta>, initial: int) returns (correct: bool)
    requires metas != []
    ensures correct <==> RecordTotal(records) + Get(Last(metas).carry, Hearth) == initial + Rewards(metas) == Last(metas).totalHearth
  {
    var accounts := 0;
    for i := 0 to |records|
      invariant accounts == RecordTotal(records[..i])
    {
      assert records[..i + 1][..i] == records[..i];
      accounts := accounts + records[i].balance;
    }
    var rewards := 0;
    for i := 0 to |metas|
      invariant rewards == Rewards(metas[..i])
    {
      assert metas[..i + 1][..i] == metas[..i];
      rewards := rewards + metas[i].reward;
    }
    assert records[..|records|] == records && metas[..|metas|] == metas;
    var actual := accounts + Get(Last(metas).carry, Hearth);
    var expected := initial + rewards;
    correct := !(actual != expected || expected != Last(metas).totalHearth);
  }

  /** In every run, the check passes exactly when no block before the last reported a conflict: it does not know of
    * penalties, which the stored total does.
    */
  lemma AuditVerdict(nodes: seq<Node>, blocks: seq<Block>, contexts: seq<Context>, initial: int, i: nat, records: seq<Record>)
    requires IsRun(nodes, blocks, contexts, initial) && i < |nodes| && Lists(records, nodes[i].balances)
    ensures var metas := nodes[i].metas;
            && metas != []
            && (RecordTotal(records) + Get(Last(metas).carry, Hearth) == initial + Rewards(metas) == Last(metas).totalHearth
                <==> Penalties(metas) == 0)
  {
    SupplyKept(nodes, blocks, contexts, initial, i);
    RecordsTotal(records, nodes[i].balances);
    hide IsRun, Lists, RecordTotal, Rewards, Penalties, BalanceTotal;
  }

  /** An empty block goes through if every conflict before it points at a committed generator. */
  lemma EmptyBlock(node: Node, miner: Address, conflicts: seq<nat>, context: Context)
    requires node.metas != [] && Penalised(map[], Last(node.metas).conflicts, context.committed).Some?
    ensures var after := Append(node, Block(miner, [], false, conflicts), context);
            after.Some? && after.value.metas != [] && Last(after.value.metas).conflicts == conflicts
  {
    var last := Last(node.metas);
    PenalisedAnyway(map[], Rewarded(Carried(node.balances, miner, last.carry), miner, context), last.conflicts, context.committed);
    hide Penalised, Rewarded, Carried;
  }

  lemma {:induction false} PenalisedAnyway(one: Balances, two: Balances, conflicts: seq<nat>, committed: seq<Address>)
    ensures Penalised(one, conflicts, committed).Some? <==> Penalised(two, conflicts, committed).Some?
  {
    if conflicts != [] {
      PenalisedAnyway(one, two, conflicts[..|conflicts| - 1], committed);
    }
  }

  lemma RunGrows(nodes: seq<Node>, blocks: seq<Block>, contexts: seq<Context>, initial: int, block: Block, context: Context)
    requires IsRun(nodes, blocks, contexts, initial) && nodes[|blocks|].metas != [] && Append(nodes[|blocks|], block, context).Some?
    ensures IsRun(nodes + [Append(nodes[|blocks|], block, context).value], blocks + [block], contexts + [context], initial)
  {
    hide Append, Start;
    var more, longer, all := nodes + [Append(nodes[|blocks|], block, context).value], blocks + [block], contexts + [context];
    forall i | 0 <= i < |longer| ensures StepAt(more, longer, all, i) {
      if i < |blocks| {
        assert StepAt(nodes, blocks, contexts, i);
      }
    }
  }

  lemma RunLength(nodes: seq<Node>, blocks: seq<Block>, contexts: seq<Context>, initial: int)
    requires IsRun(nodes, blocks, contexts, initial)
    ensures |nodes| == |blocks| + 1 == |contexts| + 1
  {
  }

  /** One more empty block with a run's last block charged for. */
  lemma Charges(nodes: seq<Node>, blocks: seq<Block>, contexts: seq<Context>, initial: int, miner: Address, conflicts: seq<nat>, context: Context)
    returns (more: seq<Node>, longer: seq<Block>, all: seq<Context>)
    requires IsRun(nodes, blocks, contexts, initial) && nodes[|blocks|].metas != []
    requires Penalised(map[], Last(nodes[|blocks|].metas).conflicts, context.committed).Some?
    ensures IsRun(more, longer, all, initial) && more[0] == nodes[0] && |longer| == |blocks| + 1
    ensures var metas := more[|longer|].metas;
            && metas != [] && Last(metas).conflicts == conflicts
            && Penalties(metas) == Penalties(nodes[|blocks|].metas) + |Last(nodes[|blocks|].metas).conflicts|
  {
    var node, block := nodes[|blocks|], Block(miner, [], false, conflicts);
    hide Append, Penalties, Penalised, Start, Last;
    EmptyBlock(node, miner, conflicts, context);
    RunGrows(nodes, blocks, contexts, initial, block, context);
    MetasGrow(node, block, context);
    more, longer, all := nodes + [Append(node, block, context).value], blocks + [block], contexts + [context];
  }

  lemma OneCommitted(who: Address)
    ensures Penalised(map[], [], [who]).Some? && Penalised(map[], [0], [who]).Some?
  {
    assert [0][..0] == [];
  }

  /** A chain the check fails on, from any genesis: the first block reports a committed generator, which pays in the second. */
  lemma PenaltyReached(who: Address, balances: Balances, context: Context)
    returns (nodes: seq<Node>, blocks: seq<Block>, contexts: seq<Context>, initial: int)
    requires context.committed == [who]
    ensures IsRun(nodes, blocks, contexts, initial) && nodes[0].balances == balances
    ensures |blocks| == 2 && nodes[2].metas != [] && Penalties(nodes[2].metas) == 1
  {
    initial := BalanceTotal(balances, Hearth);
    var genesis := Node(balances, [Meta(0, map[], initial, [])]);
    assert genesis.metas[..0] == [] && Penalties(genesis.metas) == 0;
    assert IsRun([genesis], [], [], initial);
    OneCommitted(who);
    hide BalanceTotal, Penalised, Penalties, Start;
    nodes, blocks, contexts := Charges([genesis], [], [], initial, who, [0], context);
    RunLength(nodes, blocks, contexts, initial);
    hide IsRun;
    nodes, blocks, contexts := Charges(nodes, blocks, contexts, initial, who, [], context);
    RunLength(nodes, blocks, contexts, initial);
  }
}
