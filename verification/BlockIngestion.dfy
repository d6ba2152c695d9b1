/**
 From blocks to samples. Consuming a block is pushing, in order, the samples of its usable
 transactions; what makes a transaction unusable is spelled out below.
 */
module BlockIngestion {
  import opened Options
  import opened Sequences
  import opened SlotWindow
  import opened FeeModel
  import opened FeeTracker
  import opened FeeCalculation
  import opened FeeHistory
  import opened Rates

  /** A key as received: bytes that are a public key, or bytes that are not. */
  type RawKey = Option<Pubkey>

  datatype RawInstruction = RawInstruction(programIdIndex: U32, data: seq<nat>, accounts: seq<nat>)

  /** The program index narrowed to eight bits. */
  datatype Instruction = Instruction(programIdIndex: nat, data: seq<nat>, accounts: seq<nat>)

  datatype Message = Message(
    accountKeys: seq<RawKey>, header: Option<MessageHeader>, instructions: seq<RawInstruction>, config: Option<TransactionConfig>)

  datatype StatusMeta = StatusMeta(failed: bool, loadedWritable: seq<RawKey>)

  datatype TransactionBody = TransactionBody(message: Option<Message>)

  datatype Transaction = Transaction(meta: Option<StatusMeta>, body: Option<TransactionBody>, isVote: bool)

  datatype ValidationError = TransactionFailed | TransactionMissing | MessageMissing | InvalidAccount

  datatype Result<+T> = Ok(value: T) | Err(error: ValidationError)

  /** The foreign compute-budget processor: a price for the paired instructions, or an error. */
  type Pricer = seq<(Pubkey, Instruction)> -> Option<U64>

  /** The keys that parse; the others are dropped. */
  function ParsedOnly(keys: seq<RawKey>): seq<Pubkey> {
    if keys == [] then []
    else ParsedOnly(keys[..|keys|-1]) + (if keys[|keys|-1].Some? then [keys[|keys|-1].value] else [])
  }

  function ExtractFromMeta(meta: Option<StatusMeta>): Result<seq<Pubkey>> {
    match meta
    case None => Ok([])
    case Some(m) => if m.failed then Err(TransactionFailed) else Ok(ParsedOnly(m.loadedWritable))
  }

  datatype Extracted = Extracted(message: Message, loaded: seq<Pubkey>, isVote: bool)

  function ExtractFromTransaction(t: Transaction): Result<Extracted> {
    match ExtractFromMeta(t.meta)
    case Err(e) => Err(e)
    case Ok(loaded) =>
      if t.body == None then Err(TransactionMissing)
      else if t.body.value.message == None then Err(MessageMissing)
      else Ok(Extracted(t.body.value.message.value, loaded, t.isVote))
  }

  datatype Parsed = Parsed(accounts: seq<Pubkey>, instructions: seq<Instruction>)

  predicate AllKeysValid(keys: seq<RawKey>) {
    forall k :: k in keys ==> k.Some?
  }

  function ExtractFromMessage(m: Message): Result<Parsed> {
    if AllKeysValid(m.accountKeys) then
      Ok(Parsed(
        ParsedOnly(m.accountKeys),
        seq(|m.instructions|, i requires 0 <= i < |m.instructions| =>
          Instruction(m.instructions[i].programIdIndex % 256, m.instructions[i].data, m.instructions[i].accounts))))
    else Err(InvalidAccount)
  }

  /** The instructions whose program index names an account, paired with it. */
  function Paired(accounts: seq<Pubkey>, instructions: seq<Instruction>): seq<(Pubkey, Instruction)> {
    if instructions == [] then []
    else
      var last := instructions[|instructions|-1];
      Paired(accounts, instructions[..|instructions|-1])
        + (if last.programIdIndex < |accounts| then [(accounts[last.programIdIndex], last)] else [])
  }

  /** A version 1 transaction is priced from its config alone, any other from its instructions alone. */
  function ResolvePriorityRate(price: Pricer, config: Option<TransactionConfig>, p: Parsed): Option<U64> {
    match config
    case Some(c) => V1PriorityRate(c)
    case None => price(Paired(p.accounts, p.instructions))
  }

  /** The sample of one transaction, or none when the loop skips it. */
  function SampleOf(price: Pricer, slot: Slot, t: Transaction): Option<Sample> {
    match ExtractFromTransaction(t)
    case Err(_) => None
    case Ok(x) =>
      match ExtractFromMessage(x.message)
      case Err(_) => None
      case Ok(p) =>
        match ResolvePriorityRate(price, x.message.config, p)
        case None => None
        case Some(rate) =>
          Some(Sample(slot, WritableAccounts(p.accounts, x.message.header) + x.loaded, rate, x.isVote,
                      if x.message.config.Some? then V1 else LegacyV0))
  }

  function Samples(price: Pricer, slot: Slot, transactions: seq<Transaction>): seq<Sample> {
    if transactions == [] then []
    else
      var n := |transactions| - 1;
      var s := SampleOf(price, slot, transactions[n]);
      Samples(price, slot, transactions[..n]) + (if s.Some? then [s.value] else [])
  }

  /** An update of the stream: a block, or anything else. */
  datatype Update = Block(slot: Slot, transactions: seq<Transaction>) | Other

  function SamplesOf(price: Pricer, update: Update): seq<Sample> {
    match update
    case Block(slot, transactions) => Samples(price, slot, transactions)
    case Other => []
  }

  function AllSamples(price: Pricer, updates: seq<Update>): seq<Sample> {
    if updates == [] then []
    else AllSamples(price, updates[..|updates|-1]) + SamplesOf(price, updates[|updates|-1])
  }

  // ---------------------------------------------------------------- the loop

  method Consume(tracker: PriorityFeeTracker, price: Pricer, update: Update)
    requires tracker.Consistent()
    modifies tracker, tracker.slotCache, tracker.priorityFees.Values
    ensures tracker.Consistent()
    ensures tracker.Abstract() == RunFrom(old(tracker.Abstract()), SamplesOf(price, update))
    ensures AreSamples(price, update, SamplesOf(price, update))
    ensures fresh(tracker.priorityFees.Values - old(tracker.priorityFees.Values))
  {
    if update.Block? {
      var transactions := update.transactions;
      for i := 0 to |transactions|
        invariant tracker.Consistent()
        invariant tracker.Abstract() == RunFrom(old(tracker.Abstract()), Samples(price, update.slot, transactions[..i]))
        invariant fresh(tracker.priorityFees.Values - old(tracker.priorityFees.Values))
      {
        RunFromOneMoreTransaction(old(tracker.Abstract()), price, update.slot, transactions, i);
        ConsumeTransaction(tracker, price, update.slot, transactions[i]);
      }
      assert transactions[..|transactions|] == transactions;
    }
    UpdateSamples(price, update);
  }

  /** `log` is what an update contributes: a block its usable transactions, anything else nothing. */
  ghost predicate AreSamples(price: Pricer, update: Update, log: seq<Sample>) {
    match update
    case Block(slot, transactions) => SamplesFrom(price, slot, transactions, log)
    case Other => log == []
  }

  lemma UpdateSamples(price: Pricer, update: Update)
    ensures AreSamples(price, update, SamplesOf(price, update))
  {
    if update.Block? {
      var at := SamplesAre(price, update.slot, update.transactions);
    }
  }

  method ConsumeTransaction(tracker: PriorityFeeTracker, price: Pricer, slot: Slot, t: Transaction)
    requires tracker.Consistent()
    modifies tracker, tracker.slotCache, tracker.priorityFees.Values
    ensures tracker.Consistent()
    ensures fresh(tracker.priorityFees.Values - old(tracker.priorityFees.Values))
    ensures tracker.Abstract() == match SampleOf(price, slot, t)
                                  case None => old(tracker.Abstract())
                                  case Some(e) => Push(old(tracker.Abstract()), e)
  {
    var extracted := ExtractFromTransaction(t);
    if extracted.Err? {
      return;
    }
    var message, loaded, isVote := extracted.value.message, extracted.value.loaded, extracted.value.isVote;
    var parsed := ExtractFromMessage(message);
    if parsed.Err? {
      return;
    }
    var version := if message.config.Some? then V1 else LegacyV0;
    var rate := ResolvePriorityRate(price, message.config, parsed.value);
    var writable := WritableAccounts(parsed.value.accounts, message.header) + loaded;
    if rate.Some? {
      tracker.PushPriorityFee(slot, writable, rate.value, isVote, version);
    }
  }

  lemma SamplesOneMore(price: Pricer, slot: Slot, transactions: seq<Transaction>, i: nat)
    requires i < |transactions|
    ensures var s := SampleOf(price, slot, transactions[i]);
      Samples(price, slot, transactions[..i+1]) == Samples(price, slot, transactions[..i]) + (if s.Some? then [s.value] else [])
  {
    assert transactions[..i+1][..i] == transactions[..i];
  }

  lemma RunFromOneMoreTransaction(t: Tracker, price: Pricer, slot: Slot, transactions: seq<Transaction>, i: nat)
    requires t.capacity >= 1 && i < |transactions|
    ensures RunFrom(t, Samples(price, slot, transactions[..i+1]))
         == match SampleOf(price, slot, transactions[i])
            case None => RunFrom(t, Samples(price, slot, transactions[..i]))
            case Some(e) => Push(RunFrom(t, Samples(price, slot, transactions[..i])), e)
  {
    var log, s := Samples(price, slot, transactions[..i]), SampleOf(price, slot, transactions[i]);
    SamplesOneMore(price, slot, transactions, i);
    if s.Some? {
      RunFromOneMore(t, log, s.value);
    } else {
      assert log + [] == log;
    }
  }

  lemma RunFromOneMore(t: Tracker, log: seq<Sample>, e: Sample)
    requires t.capacity >= 1
    ensures RunFrom(t, log + [e]) == Push(RunFrom(t, log), e)
  {
    assert (log + [e])[..|log|] == log;
  }

  // ---------------------------------------------------------------- what the parts of a transaction yield

  /** `keys` are exactly the received keys that parse, in order. */
  ghost predicate ParsedFrom(keys: seq<Pubkey>, raw: seq<RawKey>) {
    exists at :: ParsedAt(keys, raw, at)
  }

  ghost predicate ParsedAt(keys: seq<Pubkey>, raw: seq<RawKey>, at: seq<nat>) {
    && |at| == |keys| && StrictlyAscending(at)
    && (forall i: nat :: i in at <==> i < |raw| && raw[i] != None)
    && forall j :: 0 <= j < |keys| ==> at[j] < |raw| && raw[at[j]] == Some(keys[j])
  }

  lemma {:induction false} ParsedOnlyIs(raw: seq<RawKey>) returns (at: seq<nat>)
    ensures ParsedAt(ParsedOnly(raw), raw, at)
  {
    if raw == [] {
      at := [];
    } else {
      var n := |raw| - 1;
      var front := ParsedOnlyIs(raw[..n]);
      assert raw == raw[..n] + [raw[n]];
      ParsedMore(ParsedOnly(raw[..n]), raw[..n], front, raw[n]);
      at := if raw[n].Some? then front + [n] else front;
      if raw[n] == None {
        assert ParsedOnly(raw) == ParsedOnly(raw[..n]);
      }
    }
  }

  lemma ParsedMore(keys: seq<Pubkey>, raw: seq<RawKey>, at: seq<nat>, r: RawKey)
    requires ParsedAt(keys, raw, at)
    ensures r == None ==> ParsedAt(keys, raw + [r], at)
    ensures r.Some? ==> ParsedAt(keys + [r.value], raw + [r], at + [|raw|])
  {
    AscendingOneMore(at, |raw|);
  }

  /**
   `pairs` are, in order, exactly the instructions whose program index, narrowed to eight bits,
   names one of the message's accounts, each with that account and its own data and accounts.
   */
  ghost predicate PairsOf(m: Message, pairs: seq<(Pubkey, Instruction)>) {
    exists at :: PairsAt(m.accountKeys, m.instructions, pairs, at)
  }

  ghost predicate PairsAt(keys: seq<RawKey>, instructions: seq<RawInstruction>, pairs: seq<(Pubkey, Instruction)>, at: seq<nat>) {
    && |at| == |pairs| && StrictlyAscending(at)
    && (forall i: nat :: i in at <==> i < |instructions| && NamesAccount(keys, instructions[i]))
    && forall j :: 0 <= j < |pairs| ==> at[j] < |instructions| && IsPair(keys, instructions[at[j]], pairs[j])
  }

  predicate NamesAccount(keys: seq<RawKey>, r: RawInstruction) {
    r.programIdIndex % 256 < |keys|
  }

  predicate IsPair(keys: seq<RawKey>, r: RawInstruction, pair: (Pubkey, Instruction)) {
    var index := r.programIdIndex % 256;
    index < |keys| && keys[index] == Some(pair.0) && pair.1 == Instruction(index, r.data, r.accounts)
  }

  lemma PairsUnique(m: Message, a: seq<(Pubkey, Instruction)>, b: seq<(Pubkey, Instruction)>)
    requires PairsOf(m, a) && PairsOf(m, b)
    ensures a == b
  {
    var at :| PairsAt(m.accountKeys, m.instructions, a, at);
    var at' :| PairsAt(m.accountKeys, m.instructions, b, at');
    AscendingUnique(at, at');
    forall j | 0 <= j < |a| ensures a[j] == b[j] {
      PairUnique(m.accountKeys, m.instructions[at[j]], a[j], b[j]);
    }
  }

  lemma PairUnique(keys: seq<RawKey>, r: RawInstruction, a: (Pubkey, Instruction), b: (Pubkey, Instruction))
    requires IsPair(keys, r, a) && IsPair(keys, r, b)
    ensures a == b
  {
  }

  function NarrowedIndex(r: RawInstruction): Instruction {
    Instruction(r.programIdIndex % 256, r.data, r.accounts)
  }

  lemma {:induction false} PairedAt(raw: seq<RawKey>, keys: seq<Pubkey>, instructions: seq<RawInstruction>, narrowed: seq<Instruction>)
    returns (at: seq<nat>)
    requires |raw| == |keys| && forall i :: 0 <= i < |keys| ==> raw[i] == Some(keys[i])
    requires |narrowed| == |instructions| && forall i :: 0 <= i < |narrowed| ==> narrowed[i] == NarrowedIndex(instructions[i])
    ensures PairsAt(raw, instructions, Paired(keys, narrowed), at)
  {
    if narrowed == [] {
      at := [];
    } else {
      var n := |narrowed| - 1;
      var front := PairedAt(raw, keys, instructions[..n], narrowed[..n]);
      var last := narrowed[n];
      assert instructions == instructions[..n] + [instructions[n]];
      if last.programIdIndex < |keys| {
        at := front + [n];
        PairAdded(raw, instructions[..n], Paired(keys, narrowed[..n]), front, instructions[n], keys[last.programIdIndex]);
      } else {
        at := front;
        PairSkipped(raw, instructions[..n], Paired(keys, narrowed[..n]), front, instructions[n]);
        assert Paired(keys, narrowed) == Paired(keys, narrowed[..n]);
      }
    }
  }

  lemma PairAdded(keys: seq<RawKey>, instructions: seq<RawInstruction>, pairs: seq<(Pubkey, Instruction)>, at: seq<nat>, r: RawInstruction, k: Pubkey)
    requires PairsAt(keys, instructions, pairs, at)
    requires NamesAccount(keys, r) && IsPair(keys, r, (k, NarrowedIndex(r)))
    ensures PairsAt(keys, instructions + [r], pairs + [(k, NarrowedIndex(r))], at + [|instructions|])
  {
    AscendingOneMore(at, |instructions|);
  }

  lemma PairSkipped(keys: seq<RawKey>, instructions: seq<RawInstruction>, pairs: seq<(Pubkey, Instruction)>, at: seq<nat>, r: RawInstruction)
    requires PairsAt(keys, instructions, pairs, at) && !NamesAccount(keys, r)
    ensures PairsAt(keys, instructions + [r], pairs, at)
  {
  }

  lemma PairedIs(m: Message)
    requires AllKeysValid(m.accountKeys)
    ensures ExtractFromMessage(m).Ok?
    ensures PairsOf(m, Paired(ParsedOnly(m.accountKeys), ExtractFromMessage(m).value.instructions))
  {
    ParsedAll(m.accountKeys);
    var at := PairedAt(m.accountKeys, ParsedOnly(m.accountKeys), m.instructions, ExtractFromMessage(m).value.instructions);
  }

  lemma AllPositions(at: seq<nat>, n: nat)
    requires StrictlyAscending(at) && forall i: nat :: i in at <==> i < n
    ensures |at| == n && forall i :: 0 <= i < n ==> at[i] == i
  {
    var all := seq(n, i => i);
    forall i: nat ensures i in all <==> i in at {
      if i < n { assert all[i] == i; }
    }
    AscendingUnique(at, all);
  }

  /** When every index names an account, every instruction is handed over, in its place. */
  lemma AllPaired(m: Message, pairs: seq<(Pubkey, Instruction)>)
    requires PairsOf(m, pairs) && forall i :: 0 <= i < |m.instructions| ==> NamesAccount(m.accountKeys, m.instructions[i])
    ensures |pairs| == |m.instructions|
    ensures forall i :: 0 <= i < |pairs| ==> IsPair(m.accountKeys, m.instructions[i], pairs[i])
  {
    var at :| PairsAt(m.accountKeys, m.instructions, pairs, at);
    AllPositions(at, |m.instructions|);
  }

  // ---------------------------------------------------------------- what is skipped, and whole streams

  /** The transactions the loop skips, each for its own reason. */
  lemma SkippedExactly(price: Pricer, slot: Slot, t: Transaction)
    ensures SampleOf(price, slot, t) == None <==>
      || (t.meta.Some? && t.meta.value.failed)
      || t.body == None
      || t.body.value.message == None
      || (exists k :: k in t.body.value.message.value.accountKeys && k == None)
      || (var m := t.body.value.message.value;
          match m.config
          case Some(c) => c.computeUnitLimit == None || c.computeUnitLimit == Some(0)
          case None => exists pairs :: PairsOf(m, pairs) && price(pairs) == None)
  {
    if t.body.Some? && t.body.value.message.Some? {
      var m := t.body.value.message.value;
      if m.config.Some? {
        V1RateIsExact(m.config.value);
      } else if AllKeysValid(m.accountKeys) {
        PriceOfPairs(price, m);
      }
    }
  }

  /** What the pricer is asked is the one list of pairs the message has. */
  lemma PriceOfPairs(price: Pricer, m: Message)
    requires AllKeysValid(m.accountKeys)
    ensures ExtractFromMessage(m).Ok?
    ensures var asked := Paired(ParsedOnly(m.accountKeys), ExtractFromMessage(m).value.instructions);
      PairsOf(m, asked) && forall pairs :: PairsOf(m, pairs) ==> pairs == asked
  {
    PairedIs(m);
    var asked := Paired(ParsedOnly(m.accountKeys), ExtractFromMessage(m).value.instructions);
    forall pairs | PairsOf(m, pairs) ensures pairs == asked {
      PairsUnique(m, pairs, asked);
    }
  }

  lemma {:induction false} ParsedAll(keys: seq<RawKey>)
    requires AllKeysValid(keys)
    ensures |ParsedOnly(keys)| == |keys| && forall i :: 0 <= i < |keys| ==> keys[i] == Some(ParsedOnly(keys)[i])
  {
    if keys != [] {
      var n := |keys| - 1;
      forall k | k in keys[..n] ensures k in keys {}
      ParsedAll(keys[..n]);
      assert keys[n] in keys;
    }
  }

  /** Position `i` of a message is writable: anywhere without a header, otherwise as the header says. */
  predicate WritableAt(m: Message, i: nat) {
    i < |m.accountKeys| && (m.header == None || IsWritable(m.header.value, |m.accountKeys|, i))
  }

  /** The positions of a message at which `a` stands writable. */
  function WritablePositions(m: Message, a: Pubkey): set<nat> {
    set i: nat | i < |m.accountKeys| && WritableAt(m, i) && m.accountKeys[i] == Some(a)
  }

  function LoadedKeys(t: Transaction): seq<RawKey> {
    if t.meta.Some? then t.meta.value.loadedWritable else []
  }

  /**
   A usable transaction's sample: its slot, kind and version; as price, the version 1 rate of its
   config or what the pricer says of its pairs; as accounts, in order, the writable ones of the
   message keys and then the loaded keys that parse.
   */
  lemma SampleHolds(price: Pricer, slot: Slot, t: Transaction)
    requires SampleOf(price, slot, t).Some?
    ensures t.body.Some? && t.body.value.message.Some?
    ensures var m := t.body.value.message.value;
      var e := SampleOf(price, slot, t).value;
      && e.slot == slot && e.isVote == t.isVote && (e.version == V1 <==> m.config.Some?)
      && (m.config.Some? ==> Some(e.fee) == V1PriorityRate(m.config.value))
      && (m.config == None ==> exists pairs :: PairsOf(m, pairs) && Some(e.fee) == price(pairs))
      && exists keys: seq<Pubkey>, loaded ::
           && |keys| == |m.accountKeys| && (forall i :: 0 <= i < |keys| ==> m.accountKeys[i] == Some(keys[i]))
           && ParsedFrom(loaded, LoadedKeys(t))
           && e.accounts == WritableAccounts(keys, m.header) + loaded
  {
    var m := t.body.value.message.value;
    ParsedAll(m.accountKeys);
    var at := ParsedOnlyIs(LoadedKeys(t));
    assert ParsedFrom(ParsedOnly(LoadedKeys(t)), LoadedKeys(t));
    if m.config == None {
      PriceOfPairs(price, m);
    }
  }

  /** How often a sample names an account: once per writable position it has, once per loaded key. */
  lemma SampleNames(price: Pricer, slot: Slot, t: Transaction, a: Pubkey)
    requires SampleOf(price, slot, t).Some?
    ensures t.body.Some? && t.body.value.message.Some?
    ensures Count(SampleOf(price, slot, t).value.accounts, a)
         == |WritablePositions(t.body.value.message.value, a)| + Count(LoadedKeys(t), Some(a))
  {
    var m := t.body.value.message.value;
    WritableCounts(m, a);
    ParsedCount(LoadedKeys(t), a);
    CountAppend(WritableAccounts(ParsedOnly(m.accountKeys), m.header), ParsedOnly(LoadedKeys(t)), a);
  }

  lemma {:induction false} ParsedCount(keys: seq<RawKey>, a: Pubkey)
    ensures Count(ParsedOnly(keys), a) == Count(keys, Some(a))
  {
    if keys != [] {
      var n := |keys| - 1;
      ParsedCount(keys[..n], a);
      assert keys[n] == Some(a) <==> keys[n].Some? && keys[n].value == a;
      if keys[n].Some? {
        CountLast(ParsedOnly(keys[..n]), keys[n].value, a);
      } else {
        assert ParsedOnly(keys) == ParsedOnly(keys[..n]);
      }
    }
  }

  lemma CountLast<T>(s: seq<T>, x: T, a: T)
    ensures Count(s + [x], a) == Count(s, a) + if x == a then 1 else 0
  {
    assert (s + [x])[..|s|] == s;
  }

  lemma {:induction false} CountAppend<T>(s: seq<T>, r: seq<T>, a: T)
    ensures Count(s + r, a) == Count(s, a) + Count(r, a)
  {
    if r == [] {
      assert s + r == s;
    } else {
      var n := |r| - 1;
      CountAppend(s, r[..n], a);
      assert s + r == s + r[..n] + [r[n]];
      CountLast(s + r[..n], r[n], a);
    }
  }

  lemma WritableCounts(m: Message, a: Pubkey)
    requires AllKeysValid(m.accountKeys)
    ensures Count(WritableAccounts(ParsedOnly(m.accountKeys), m.header), a) == |WritablePositions(m, a)|
  {
    var keys := ParsedOnly(m.accountKeys);
    ParsedAll(m.accountKeys);
    if m.header.Some? {
      KeptCount(keys, m.header.value, |keys|, a);
      assert WritablePositions(m, a) == KeptPositions(keys, m.header.value, |keys|, a);
    } else {
      AllCount(keys, |keys|, a);
      assert keys[..|keys|] == keys;
      assert WritablePositions(m, a) == Positions(keys, |keys|, a);
    }
  }

  function Positions<T(==)>(keys: seq<T>, k: nat, a: T): set<nat>
    requires k <= |keys|
  {
    set i: nat | i < k && keys[i] == a
  }

  function KeptPositions<T(==)>(keys: seq<T>, h: MessageHeader, k: nat, a: T): set<nat>
    requires k <= |keys|
  {
    set i: nat | i < k && IsWritable(h, |keys|, i) && keys[i] == a
  }

  lemma {:induction false} AllCount<T>(keys: seq<T>, k: nat, a: T)
    requires k <= |keys|
    ensures Count(keys[..k], a) == |Positions(keys, k, a)|
  {
    if k > 0 {
      AllCount(keys, k - 1, a);
      assert keys[..k] == keys[..k-1] + [keys[k-1]];
      CountLast(keys[..k-1], keys[k-1], a);
      assert Positions(keys, k, a) == Positions(keys, k - 1, a) + (if keys[k-1] == a then {k - 1} else {});
    }
  }

  lemma {:induction false} KeptCount<T>(keys: seq<T>, h: MessageHeader, k: nat, a: T)
    requires k <= |keys|
    ensures Count(Keep(keys, h, k), a) == |KeptPositions(keys, h, k, a)|
  {
    if k > 0 {
      KeptCount(keys, h, k - 1, a);
      KeptOneMore(keys, h, k, a);
      if IsWritable(h, |keys|, k - 1) {
        CountLast(Keep(keys, h, k - 1), keys[k-1], a);
      } else {
        assert Keep(keys, h, k) == Keep(keys, h, k - 1);
      }
    }
  }

  lemma KeptOneMore<T>(keys: seq<T>, h: MessageHeader, k: nat, a: T)
    requires 0 < k <= |keys|
    ensures |KeptPositions(keys, h, k, a)|
         == |KeptPositions(keys, h, k - 1, a)| + if IsWritable(h, |keys|, k - 1) && keys[k-1] == a then 1 else 0
  {
    var more: set<nat> := if IsWritable(h, |keys|, k - 1) && keys[k-1] == a then {k - 1} else {};
    assert KeptPositions(keys, h, k, a) == KeptPositions(keys, h, k - 1, a) + more;
  }

  /** `log` has, in order, one sample for each usable transaction: those at positions `at`, no others. */
  ghost predicate SamplesAt(price: Pricer, slot: Slot, transactions: seq<Transaction>, log: seq<Sample>, at: seq<nat>) {
    && |at| == |log| && StrictlyAscending(at)
    && (forall i: nat :: i in at <==> i < |transactions| && SampleOf(price, slot, transactions[i]) != None)
    && forall j :: 0 <= j < |log| ==> at[j] < |transactions| && SampleOf(price, slot, transactions[at[j]]) == Some(log[j])
  }

  ghost predicate SamplesFrom(price: Pricer, slot: Slot, transactions: seq<Transaction>, log: seq<Sample>) {
    exists at :: SamplesAt(price, slot, transactions, log, at)
  }

  /** A block's samples are those of all its usable transactions, and of nothing else. */
  lemma {:induction false} SamplesAre(price: Pricer, slot: Slot, transactions: seq<Transaction>) returns (at: seq<nat>)
    ensures SamplesAt(price, slot, transactions, Samples(price, slot, transactions), at)
  {
    if transactions == [] {
      at := [];
    } else {
      var n := |transactions| - 1;
      var front := SamplesAre(price, slot, transactions[..n]);
      assert transactions == transactions[..n] + [transactions[n]];
      var log, last := Samples(price, slot, transactions[..n]), SampleOf(price, slot, transactions[n]);
      if last == None {
        at := front;
        SampleSkipped(price, slot, transactions[..n], log, front, transactions[n]);
        assert Samples(price, slot, transactions) == log;
      } else {
        at := front + [n];
        SampleAdded(price, slot, transactions[..n], log, front, transactions[n], last.value);
      }
    }
  }

  lemma SampleAdded(price: Pricer, slot: Slot, transactions: seq<Transaction>, log: seq<Sample>, at: seq<nat>, t: Transaction, e: Sample)
    requires SamplesAt(price, slot, transactions, log, at) && SampleOf(price, slot, t) == Some(e)
    ensures SamplesAt(price, slot, transactions + [t], log + [e], at + [|transactions|])
  {
    AscendingOneMore(at, |transactions|);
  }

  lemma SampleSkipped(price: Pricer, slot: Slot, transactions: seq<Transaction>, log: seq<Sample>, at: seq<nat>, t: Transaction)
    requires SamplesAt(price, slot, transactions, log, at) && SampleOf(price, slot, t) == None
    ensures SamplesAt(price, slot, transactions + [t], log, at)
  {
  }

  lemma SamplesUnique(price: Pricer, slot: Slot, transactions: seq<Transaction>, a: seq<Sample>, b: seq<Sample>)
    requires SamplesFrom(price, slot, transactions, a) && SamplesFrom(price, slot, transactions, b)
    ensures a == b
  {
    var at :| SamplesAt(price, slot, transactions, a, at);
    var at' :| SamplesAt(price, slot, transactions, b, at');
    AscendingUnique(at, at');
  }

  /** A skipped transaction leaves no trace wherever it stands in the block. */
  lemma {:induction false} SkippedLeavesNoTrace(price: Pricer, slot: Slot, a: seq<Transaction>, t: Transaction, b: seq<Transaction>)
    requires SampleOf(price, slot, t) == None
    ensures Samples(price, slot, a + [t] + b) == Samples(price, slot, a + b)
  {
    if b == [] {
      assert a + [t] + b == a + [t] && a + b == a;
      assert (a + [t])[..|a|] == a;
    } else {
      var n := |b| - 1;
      assert (a + [t] + b)[..|a + [t] + b| - 1] == a + [t] + b[..n];
      assert (a + b)[..|a + b| - 1] == a + b[..n];
      SkippedLeavesNoTrace(price, slot, a, t, b[..n]);
    }
  }

  /** The consumer's loop: one update after another, each consumed to the end. */
  method ConsumeStream(tracker: PriorityFeeTracker, price: Pricer, updates: seq<Update>)
    requires tracker.Consistent()
    modifies tracker, tracker.slotCache, tracker.priorityFees.Values
    ensures tracker.Consistent()
    ensures tracker.Abstract() == RunFrom(old(tracker.Abstract()), AllSamples(price, updates))
  {
    for i := 0 to |updates|
      invariant tracker.Consistent()
      invariant tracker.Abstract() == RunFrom(old(tracker.Abstract()), AllSamples(price, updates[..i]))
      invariant fresh(tracker.priorityFees.Values - old(tracker.priorityFees.Values))
    {
      Consume(tracker, price, updates[i]);
      AllSamplesOneMore(price, updates, i);
      RunFromJoins(old(tracker.Abstract()), AllSamples(price, updates[..i]), SamplesOf(price, updates[i]));
    }
    assert updates[..|updates|] == updates;
  }

  lemma AllSamplesOneMore(price: Pricer, updates: seq<Update>, i: nat)
    requires i < |updates|
    ensures AllSamples(price, updates[..i+1]) == AllSamples(price, updates[..i]) + SamplesOf(price, updates[i])
  {
    assert updates[..i+1][..i] == updates[..i];
  }

  lemma {:induction false} RunFromJoins(t: Tracker, a: seq<Sample>, b: seq<Sample>)
    requires t.capacity >= 1
    ensures RunFrom(RunFrom(t, a), b) == RunFrom(t, a + b)
  {
    if b == [] {
      assert a + b == a;
    } else {
      var n := |b| - 1;
      RunFromJoins(t, a, b[..n]);
      assert a + b == a + b[..n] + [b[n]];
      RunFromOneMore(t, a + b[..n], b[n]);
    }
  }

  /** A new tracker that consumes a stream of updates runs the log of all their samples. */
  method TrackStream(capacity: nat, price: Pricer, updates: seq<Update>) returns (tracker: PriorityFeeTracker)
    requires capacity >= 1
    ensures tracker.Consistent() && tracker.Abstract() == Run(capacity, AllSamples(price, updates))
  {
    tracker := new PriorityFeeTracker(capacity);
    ConsumeStream(tracker, price, updates);
    RunFromAppends(capacity, [], AllSamples(price, updates));
    assert [] + AllSamples(price, updates) == AllSamples(price, updates);
  }

  lemma {:induction false} SamplesHaveSlot(price: Pricer, slot: Slot, transactions: seq<Transaction>)
    ensures forall e :: e in Samples(price, slot, transactions) ==> e.slot == slot
  {
    if transactions != [] {
      SamplesHaveSlot(price, slot, transactions[..|transactions|-1]);
    }
  }

  predicate BlocksInOrder(updates: seq<Update>) {
    forall i, j :: 0 <= i < j < |updates| && updates[i].Block? && updates[j].Block? ==> updates[i].slot <= updates[j].slot
  }

  /** Every sample of a stream comes from a block of the stream with its slot. */
  lemma {:induction false} SampleSource(price: Pricer, updates: seq<Update>, e: Sample)
    requires e in AllSamples(price, updates)
    ensures exists i :: 0 <= i < |updates| && updates[i].Block? && updates[i].slot == e.slot
  {
    var n := |updates| - 1;
    if e in AllSamples(price, updates[..n]) {
      SampleSource(price, updates[..n], e);
      var i :| 0 <= i < n && updates[..n][i].Block? && updates[..n][i].slot == e.slot;
      assert updates[i] == updates[..n][i];
    } else {
      assert updates[n].Block?;
      SamplesHaveSlot(price, updates[n].slot, updates[n].transactions);
    }
  }

  lemma {:induction false} OrderedBlocksOrderedLog(price: Pricer, updates: seq<Update>)
    requires BlocksInOrder(updates)
    ensures NeverDecreasing(AllSamples(price, updates))
  {
    if updates != [] {
      var n := |updates| - 1;
      var front, last := AllSamples(price, updates[..n]), SamplesOf(price, updates[n]);
      OrderedBlocksOrderedLog(price, updates[..n]);
      if updates[n].Block? {
        SamplesHaveSlot(price, updates[n].slot, updates[n].transactions);
        forall e | e in front ensures e.slot <= updates[n].slot {
          SampleSource(price, updates[..n], e);
          var i :| 0 <= i < n && updates[..n][i].Block? && updates[..n][i].slot == e.slot;
          assert updates[i] == updates[..n][i];
        }
        forall i, j | 0 <= i < j < |front + last| ensures (front + last)[i].slot <= (front + last)[j].slot {
          assert j >= |front| ==> (front + last)[j] in last;
          assert i >= |front| ==> (front + last)[i] in last;
          assert i < |front| ==> (front + last)[i] in front;
        }
      }
    }
  }

  /**
   End to end: after any stream of blocks in slot order, Global with votes holds exactly the fees
   of the usable transactions of the `capacity` highest slots that had any.
   */
  lemma StreamWindow(capacity: nat, price: Pricer, updates: seq<Update>, algorithm: Algorithm, q: Query)
    requires capacity >= 1 && BlocksInOrder(updates) && q.includeVote && q.lookback == None
    ensures var log := AllSamples(price, updates);
      var index := Run(capacity, log).index;
      && AreHighest(index.Keys, SlotsOf(log), capacity)
      && multiset(Held(Groups(algorithm, index, q), Global)) == multiset(FeesTo(log, index.Keys))
  {
    OrderedBlocksOrderedLog(price, updates);
    SlidingWindowInOrder(capacity, AllSamples(price, updates), algorithm, q);
  }
}
