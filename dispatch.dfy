/**
 * The subscriber side of the bot: the store of chat ids, the `/subscribe`
 * and `/unsubscribe` handlers, and `notifyAvailable`, which sends every
 * chunk of the automatic summary to every subscriber in batches of 20 and
 * deletes the subscribers Telegram reports as gone.
 */
module Dispatch {
  import opened Wrappers
  import opened Products
  import Summary
  import Chunking

  const BatchSize: nat := 20

  /** What one `sendMessage` did: delivered, or failed with the status code the error carried, if any. */
  datatype SendResult = Delivered | Failed(status: Option<int>)

  /** 403, 400 and 410 mean the bot was blocked or the chat is gone: the subscriber is deleted. */
  predicate Bounces(r: SendResult)
  {
    r.Failed? && r.status.Some? && (r.status.value == 403 || r.status.value == 400 || r.status.value == 410)
  }

  /** One send: chunk number `chunk` (its text `text`) to `chatId`. The transport is an oracle on attempts. */
  datatype Attempt = Attempt(chunk: nat, chatId: int, text: string)

  const AlreadySubscribed := "You are already subscribed to Matcha Bot."
  const Subscribed := "You have successfully subscribed to Matcha Bot!"
  const SubscribeError := "Error subscribing to Matcha Bot. Please notify the creator."
  const NotSubscribed := "You are not subscribed to Matcha Bot."
  const Unsubscribed := "You have unsubscribed from Matcha Bot."
  const UnsubscribeError := "Error unsubscribing. Please notify the creator."

  /** `chatId` is unique in the subscriber table. */
  predicate Distinct(rows: seq<int>)
  {
    forall i, j :: 0 <= i < j < |rows| ==> rows[i] != rows[j]
  }

  /** The rows whose chat id is not in `gone`, in their order. */
  function Keep(rows: seq<int>, gone: set<int>): seq<int>
  {
    if rows == [] then []
    else Keep(rows[..|rows| - 1], gone) + (if rows[|rows| - 1] in gone then [] else [rows[|rows| - 1]])
  }

  lemma {:induction false} KeepMembers(rows: seq<int>, gone: set<int>)
    ensures forall x :: x in Keep(rows, gone) <==> x in rows && x !in gone
  {
    if rows != [] {
      var init := rows[..|rows| - 1];
      KeepMembers(init, gone);
      assert rows == init + [rows[|rows| - 1]];
    }
  }

  lemma {:induction false} KeepDistinct(rows: seq<int>, gone: set<int>)
    requires Distinct(rows)
    ensures Distinct(Keep(rows, gone))
  {
    if rows != [] {
      var init := rows[..|rows| - 1];
      assert Distinct(init) by {
        forall i, j | 0 <= i < j < |init| ensures init[i] != init[j] {
          assert init[i] == rows[i] && init[j] == rows[j];
        }
      }
      KeepDistinct(init, gone);
      KeepMembers(init, gone);
      var last := rows[|rows| - 1];
      assert last !in init by {
        forall i | 0 <= i < |init| ensures init[i] != last {
          assert init[i] == rows[i];
        }
      }
    }
  }

  /** Deleting `a` and then `b` deletes both. */
  lemma {:induction false} KeepKeep(rows: seq<int>, a: set<int>, b: set<int>)
    ensures Keep(Keep(rows, a), b) == Keep(rows, a + b)
  {
    if rows != [] {
      var init := rows[..|rows| - 1];
      var last := rows[|rows| - 1];
      KeepKeep(init, a, b);
      var k := Keep(rows, a);
      if last in a {
        assert k == Keep(init, a) + [];
        assert k == Keep(init, a);
      } else {
        assert k == Keep(init, a) + [last];
        assert k[..|k| - 1] == Keep(init, a);
      }
    }
  }

  class SubscriberStore {
    var rows: seq<int>

    predicate Valid()
      reads this
    {
      Distinct(rows)
    }

    constructor ()
      ensures rows == [] && Valid()
    {
      rows := [];
    }

    /** `findUnique({ where: { chatId } })` found a row. */
    predicate Has(chatId: int)
      reads this
    {
      chatId in rows
    }

    /** `create({ data: { chatId } })`: the unique constraint demands an absent id. */
    method Insert(chatId: int)
      requires Valid() && !Has(chatId)
      modifies this
      ensures rows == old(rows) + [chatId] && Valid()
    {
      rows := rows + [chatId];
    }

    /** `delete({ where: { chatId } })`; deleting an absent row changes nothing. */
    method Delete(chatId: int)
      requires Valid()
      modifies this
      ensures rows == Keep(old(rows), {chatId}) && Valid()
    {
      KeepDistinct(rows, {chatId});
      rows := Keep(rows, {chatId});
    }
  }

  /** The store after a handler, and the reply it sends. */
  datatype Handled = Handled(rows: seq<int>, reply: string)

  /**
   * The `/subscribe` handler. `storeUp` false means a Prisma call threw;
   * `replyOk` false means the `sendMessage` inside the `try` rejected. Either
   * way the catch sends the error text, but a `create` that already ran stays.
   */
  function SubscribeStep(rows: seq<int>, chatId: int, storeUp: bool, replyOk: bool): Handled
  {
    if !storeUp then Handled(rows, SubscribeError)
    else if chatId in rows then Handled(rows, if replyOk then AlreadySubscribed else SubscribeError)
    else Handled(rows + [chatId], if replyOk then Subscribed else SubscribeError)
  }

  /** The `/unsubscribe` handler, with the same two failure inputs. */
  function UnsubscribeStep(rows: seq<int>, chatId: int, storeUp: bool, replyOk: bool): Handled
  {
    if !storeUp then Handled(rows, UnsubscribeError)
    else if chatId !in rows then Handled(rows, if replyOk then NotSubscribed else UnsubscribeError)
    else Handled(Keep(rows, {chatId}), if replyOk then Unsubscribed else UnsubscribeError)
  }

  method Subscribe(store: SubscriberStore, chatId: int, storeUp: bool, replyOk: bool) returns (reply: string)
    requires store.Valid()
    modifies store
    ensures store.Valid()
    ensures Handled(store.rows, reply) == SubscribeStep(old(store.rows), chatId, storeUp, replyOk)
  {
    if !storeUp {
      return SubscribeError;
    }
    if store.Has(chatId) {
      reply := AlreadySubscribed;
    } else {
      store.Insert(chatId);
      reply := Subscribed;
    }
    if !replyOk {
      reply := SubscribeError;
    }
  }

  method Unsubscribe(store: SubscriberStore, chatId: int, storeUp: bool, replyOk: bool) returns (reply: string)
    requires store.Valid()
    modifies store
    ensures store.Valid()
    ensures Handled(store.rows, reply) == UnsubscribeStep(old(store.rows), chatId, storeUp, replyOk)
  {
    if !storeUp {
      return UnsubscribeError;
    }
    if !store.Has(chatId) {
      reply := NotSubscribed;
    } else {
      store.Delete(chatId);
      reply := Unsubscribed;
    }
    if !replyOk {
      reply := UnsubscribeError;
    }
  }

  /**
   * `/subscribe` inserts exactly when the id was absent, keeps the ids
   * unique, and afterwards the chat is subscribed whatever the reply; the
   * success text goes out exactly for a new id whose reply was delivered.
   */
  lemma SubscribeSpec(rows: seq<int>, chatId: int, replyOk: bool)
    requires Distinct(rows)
    ensures var h := SubscribeStep(rows, chatId, true, replyOk);
      Distinct(h.rows) && chatId in h.rows &&
      (h.reply == Subscribed <==> replyOk && chatId !in rows) &&
      (h.reply == SubscribeError <==> !replyOk) &&
      (forall x :: x in h.rows <==> x in rows || x == chatId)
  {
    assert Subscribed != SubscribeError && AlreadySubscribed != SubscribeError && AlreadySubscribed != Subscribed;
  }

  /** `/unsubscribe` deletes exactly when the id was present and touches no other row. */
  lemma UnsubscribeSpec(rows: seq<int>, chatId: int, replyOk: bool)
    requires Distinct(rows)
    ensures var h := UnsubscribeStep(rows, chatId, true, replyOk);
      Distinct(h.rows) && chatId !in h.rows &&
      (h.reply == Unsubscribed <==> replyOk && chatId in rows) &&
      (h.reply == UnsubscribeError <==> !replyOk) &&
      (forall x :: x in h.rows <==> x in rows && x != chatId)
  {
    KeepMembers(rows, {chatId});
    KeepDistinct(rows, {chatId});
    assert Unsubscribed != UnsubscribeError && NotSubscribed != UnsubscribeError && NotSubscribed != Unsubscribed;
  }

  /**
   * A reply that fails to send does not undo the store change: the rows are
   * those of the delivered case, and the chat gets the error text instead.
   */
  lemma FailedReplyKeepsChange(rows: seq<int>, chatId: int, storeUp: bool)
    ensures SubscribeStep(rows, chatId, storeUp, false).rows == SubscribeStep(rows, chatId, storeUp, true).rows
    ensures SubscribeStep(rows, chatId, storeUp, false).reply == SubscribeError
    ensures UnsubscribeStep(rows, chatId, storeUp, false).rows == UnsubscribeStep(rows, chatId, storeUp, true).rows
    ensures UnsubscribeStep(rows, chatId, storeUp, false).reply == UnsubscribeError
  {
  }

  /** Subscribing a new chat and unsubscribing it again leaves the store as it was, whichever replies went out. */
  lemma SubscribeThenUnsubscribe(rows: seq<int>, chatId: int, replyOk1: bool, replyOk2: bool)
    requires chatId !in rows
    ensures UnsubscribeStep(SubscribeStep(rows, chatId, true, replyOk1).rows, chatId, true, replyOk2).rows == rows
  {
    var r := rows + [chatId];
    assert r[..|r| - 1] == rows;
    KeepAbsent(rows, {chatId});
  }

  lemma {:induction false} KeepAbsent(rows: seq<int>, gone: set<int>)
    requires forall x :: x in gone ==> x !in rows
    ensures Keep(rows, gone) == rows
  {
    if rows != [] {
      var init := rows[..|rows| - 1];
      var last := rows[|rows| - 1];
      assert rows == init + [last];
      assert last in rows;
      KeepAbsent(init, gone);
    }
  }

  /** `findMany()` rows in order `subs`, cut as `subscribers.slice(i, i + BATCH_SIZE)` for i = start, start + 20, ... */
  function BatchesFrom(subs: seq<int>, start: nat): seq<seq<int>>
    decreases |subs| - start
  {
    if start >= |subs| then []
    else [subs[start..Min(start + BatchSize, |subs|)]] + BatchesFrom(subs, start + BatchSize)
  }

  function Min(a: int, b: int): int
  {
    if a <= b then a else b
  }

  /**
   * The batches cover the subscribers exactly once, in order; every batch
   * but the last holds exactly 20 and the last holds 1 to 20.
   */
  lemma {:induction false} BatchesCover(subs: seq<int>, start: nat)
    requires start <= |subs|
    ensures Chunking.Flatten(BatchesFrom(subs, start)) == subs[start..]
    ensures |BatchesFrom(subs, start)| == (|subs| - start + BatchSize - 1) / BatchSize
    ensures forall k :: 0 <= k < |BatchesFrom(subs, start)| - 1 ==> |BatchesFrom(subs, start)[k]| == BatchSize
    ensures forall k :: 0 <= k < |BatchesFrom(subs, start)| ==> 1 <= |BatchesFrom(subs, start)[k]| <= BatchSize
    decreases |subs| - start
  {
    var b := BatchesFrom(subs, start);
    if start < |subs| {
      var hi := Min(start + BatchSize, |subs|);
      if hi == |subs| {
        assert BatchesFrom(subs, start + BatchSize) == [];
        assert subs[start..hi] == subs[start..];
        assert b == [subs[start..]];
        assert Chunking.Flatten(b) == subs[start..] + Chunking.Flatten([]);
      } else {
        BatchesCover(subs, hi);
        var rest := BatchesFrom(subs, hi);
        assert b == [subs[start..hi]] + rest;
        assert b[1..] == rest;
        assert subs[start..] == subs[start..hi] + subs[hi..];
        forall k | 1 <= k < |b| ensures b[k] == rest[k - 1] {
        }
      }
    }
  }

  /** One chunk sent to each of `subs`, in order. */
  function Round(chunk: nat, text: string, subs: seq<int>): seq<Attempt>
  {
    if subs == [] then [] else Round(chunk, text, subs[..|subs| - 1]) + [Attempt(chunk, subs[|subs| - 1], text)]
  }

  lemma {:induction false} RoundShape(chunk: nat, text: string, subs: seq<int>)
    ensures |Round(chunk, text, subs)| == |subs|
    ensures forall j :: 0 <= j < |subs| ==> Round(chunk, text, subs)[j] == Attempt(chunk, subs[j], text)
  {
    if subs != [] {
      RoundShape(chunk, text, subs[..|subs| - 1]);
    }
  }

  lemma {:induction false} RoundAppend(chunk: nat, text: string, a: seq<int>, b: seq<int>)
    ensures Round(chunk, text, a + b) == Round(chunk, text, a) + Round(chunk, text, b)
  {
    if b != [] {
      var init := b[..|b| - 1];
      RoundAppend(chunk, text, a, init);
      assert (a + b)[..|a + b| - 1] == a + init;
    } else {
      assert a + b == a;
    }
  }

  /** Every chunk, in order, sent to every subscriber. */
  function Fanout(chunks: seq<string>, subs: seq<int>): seq<Attempt>
  {
    if chunks == [] then []
    else Fanout(chunks[..|chunks| - 1], subs) + Round(|chunks| - 1, chunks[|chunks| - 1], subs)
  }

  /**
   * The fan-out makes #chunks × #subscribers sends, chunk by chunk, and the
   * send for chunk `k` to subscriber `j` sits at `k * |subs| + j`.
   */
  lemma FanoutShape(chunks: seq<string>, subs: seq<int>)
    ensures |Fanout(chunks, subs)| == |chunks| * |subs|
    ensures forall k, j :: 0 <= k < |chunks| && 0 <= j < |subs| ==>
      Slot(k, j, |subs|) < |Fanout(chunks, subs)| && Fanout(chunks, subs)[Slot(k, j, |subs|)] == Attempt(k, subs[j], chunks[k])
  {
    FanoutLength(chunks, subs);
    forall k, j | 0 <= k < |chunks| && 0 <= j < |subs|
      ensures Slot(k, j, |subs|) < |Fanout(chunks, subs)| && Fanout(chunks, subs)[Slot(k, j, |subs|)] == Attempt(k, subs[j], chunks[k])
    {
      FanoutAt(chunks, subs, k, j);
    }
  }

  lemma {:induction false} FanoutLength(chunks: seq<string>, subs: seq<int>)
    ensures |Fanout(chunks, subs)| == |chunks| * |subs|
  {
    if chunks != [] {
      var n := |chunks| - 1;
      FanoutLength(chunks[..n], subs);
      RoundShape(n, chunks[n], subs);
      SlotLast(n, |subs|);
    }
  }

  lemma {:induction false} FanoutAt(chunks: seq<string>, subs: seq<int>, k: nat, j: nat)
    requires k < |chunks| && j < |subs|
    ensures Slot(k, j, |subs|) < |Fanout(chunks, subs)|
    ensures Fanout(chunks, subs)[Slot(k, j, |subs|)] == Attempt(k, subs[j], chunks[k])
  {
    var n := |chunks| - 1;
    var m := |subs|;
    var init := chunks[..n];
    var head := Fanout(init, subs);
    var r := Round(n, chunks[n], subs);
    FanoutLength(init, subs);
    RoundShape(n, chunks[n], subs);
    assert Fanout(chunks, subs) == head + r;
    if k < n {
      FanoutAt(init, subs, k, j);
      assert init[k] == chunks[k];
    } else {
      assert Slot(k, j, m) == |head| + j;
    }
  }

  /** Where chunk `k`'s send to subscriber `j` lands when there are `m` subscribers. */
  function Slot(k: nat, j: nat, m: nat): nat
  {
    k * m + j
  }

  lemma SlotLast(n: nat, m: nat)
    ensures (n + 1) * m == n * m + m
  {
  }

  /** The store after the deletions the bounced sends of `attempts` trigger, one by one. */
  function Prune(rows: seq<int>, attempts: seq<Attempt>, send: Attempt -> SendResult): seq<int>
  {
    if attempts == [] then rows
    else
      var p := Prune(rows, attempts[..|attempts| - 1], send);
      var a := attempts[|attempts| - 1];
      if Bounces(send(a)) then Keep(p, {a.chatId}) else p
  }

  /** The chat ids some send of `attempts` bounced on. */
  function Bounced(attempts: seq<Attempt>, send: Attempt -> SendResult): set<int>
  {
    set a | a in attempts && Bounces(send(a)) :: a.chatId
  }

  lemma {:induction false} PruneAppend(rows: seq<int>, a: seq<Attempt>, b: seq<Attempt>, send: Attempt -> SendResult)
    ensures Prune(rows, a + b, send) == Prune(Prune(rows, a, send), b, send)
  {
    if b != [] {
      var init := b[..|b| - 1];
      PruneAppend(rows, a, init, send);
      assert (a + b)[..|a + b| - 1] == a + init;
    } else {
      assert a + b == a;
    }
  }

  /**
   * The store after the fan-out is the original with exactly the bounced
   * subscribers removed, in the original order: nothing else changes.
   */
  lemma {:induction false} PruneRemovesBounced(rows: seq<int>, attempts: seq<Attempt>, send: Attempt -> SendResult)
    ensures Prune(rows, attempts, send) == Keep(rows, Bounced(attempts, send))
  {
    if attempts == [] {
      assert Bounced(attempts, send) == {};
      KeepAbsent(rows, {});
    } else {
      var init := attempts[..|attempts| - 1];
      var a := attempts[|attempts| - 1];
      PruneRemovesBounced(rows, init, send);
      assert attempts == init + [a];
      if Bounces(send(a)) {
        KeepKeep(rows, Bounced(init, send), {a.chatId});
        assert Bounced(attempts, send) == Bounced(init, send) + {a.chatId};
      } else {
        assert Bounced(attempts, send) == Bounced(init, send);
      }
    }
  }

  /** The chunks of the automatic summary. */
  function NotifyChunks(products: seq<Product>): seq<string>
  {
    Chunking.Chunks(Summary.MakeSummary(products, Summary.Automatic), Chunking.MaxLength)
  }

  /** The sends `notifyAvailable` makes: none when it returns early or throws. */
  function Plan(botReady: bool, storeUp: bool, subs: seq<int>, products: seq<Product>): seq<Attempt>
  {
    if !botReady || !storeUp || subs == [] then [] else Fanout(NotifyChunks(products), subs)
  }

  /** One batch, member by member; a bounce deletes that member and the batch goes on. */
  method SendBatch(store: SubscriberStore, chunk: nat, text: string, batch: seq<int>, send: Attempt -> SendResult)
    returns (sent: seq<Attempt>)
    requires store.Valid()
    modifies store
    ensures store.Valid()
    ensures sent == Round(chunk, text, batch)
    ensures store.rows == Prune(old(store.rows), sent, send)
  {
    sent := [];
    for j := 0 to |batch|
      invariant store.Valid()
      invariant sent == Round(chunk, text, batch[..j])
      invariant store.rows == Prune(old(store.rows), sent, send)
    {
      var attempt := Attempt(chunk, batch[j], text);
      assert batch[..j + 1][..j] == batch[..j];
      if Bounces(send(attempt)) {
        store.Delete(batch[j]);
      }
      assert (sent + [attempt])[..|sent|] == sent;
      sent := sent + [attempt];
    }
    assert batch[..|batch|] == batch;
  }

  /** The sends of several batches, batch after batch. */
  function BatchRounds(chunk: nat, text: string, batches: seq<seq<int>>): seq<Attempt>
  {
    if batches == [] then []
    else BatchRounds(chunk, text, batches[..|batches| - 1]) + Round(chunk, text, batches[|batches| - 1])
  }

  /**
   * One chunk to all subscribers, batch after batch: `batches` are the
   * slices the loop took, and the sends are their rounds in that order.
   */
  method SendChunk(store: SubscriberStore, chunk: nat, text: string, subs: seq<int>, send: Attempt -> SendResult)
    returns (sent: seq<Attempt>, ghost batches: seq<seq<int>>)
    requires store.Valid()
    modifies store
    ensures store.Valid()
    ensures batches == BatchesFrom(subs, 0)
    ensures sent == BatchRounds(chunk, text, batches)
    ensures sent == Round(chunk, text, subs)
    ensures store.rows == Prune(old(store.rows), sent, send)
  {
    sent := [];
    var i := 0;
    batches := [];
    while i < |subs|
      invariant store.Valid()
      invariant batches + BatchesFrom(subs, i) == BatchesFrom(subs, 0)
      invariant sent == BatchRounds(chunk, text, batches)
      invariant sent == Round(chunk, text, subs[..Min(i, |subs|)])
      invariant store.rows == Prune(old(store.rows), sent, send)
      decreases |subs| - i
    {
      var batch := subs[i..Min(i + BatchSize, |subs|)];
      BatchStep(chunk, text, subs, i, batches);
      var more := SendBatch(store, chunk, text, batch, send);
      PruneAppend(old(store.rows), sent, more, send);
      sent := sent + more;
      assert (batches + [batch])[..|batches|] == batches;
      batches := batches + [batch];
      i := i + BatchSize;
    }
    assert subs[..|subs|] == subs;
    assert batches + [] == batches;
  }

  /** One step of the batch loop: the next slice is the next batch, and its sends extend the round. */
  lemma BatchStep(chunk: nat, text: string, subs: seq<int>, i: nat, done: seq<seq<int>>)
    requires i < |subs|
    requires done + BatchesFrom(subs, i) == BatchesFrom(subs, 0)
    ensures (done + [subs[i..Min(i + BatchSize, |subs|)]]) + BatchesFrom(subs, i + BatchSize) == BatchesFrom(subs, 0)
    ensures Round(chunk, text, subs[..Min(i, |subs|)]) + Round(chunk, text, subs[i..Min(i + BatchSize, |subs|)])
         == Round(chunk, text, subs[..Min(i + BatchSize, |subs|)])
  {
    var hi := Min(i + BatchSize, |subs|);
    var batch := subs[i..hi];
    var rest := BatchesFrom(subs, i + BatchSize);
    assert BatchesFrom(subs, i) == [batch] + rest;
    assert done + ([batch] + rest) == (done + [batch]) + rest;
    assert Min(i, |subs|) == i;
    RoundAppend(chunk, text, subs[..i], batch);
    assert subs[..i] + batch == subs[..hi];
  }

  /**
   * `notifyAvailable(products)`. `botReady` is `bot` being set, `storeUp`
   * is `findMany()` succeeding (its failure is the only exception that
   * escapes); the subscriber list is read once, before any send.
   */
  method NotifyAvailable(store: SubscriberStore, botReady: bool, storeUp: bool, products: seq<Product>,
                         send: Attempt -> SendResult)
    returns (thrown: bool, attempts: seq<Attempt>)
    requires store.Valid()
    modifies store
    ensures store.Valid()
    ensures thrown <==> botReady && !storeUp
    ensures attempts == Plan(botReady, storeUp, old(store.rows), products)
    ensures store.rows == Prune(old(store.rows), attempts, send)
  {
    attempts := [];
    if !botReady {
      return false, attempts;
    }
    if !storeUp {
      return true, attempts;
    }
    var subs := store.rows;
    if |subs| == 0 {
      return false, attempts;
    }
    var full := Summary.MakeSummary(products, Summary.Automatic);
    var chunks := Chunking.ChunkText(full, Chunking.MaxLength);
    attempts := SendAll(store, chunks, subs, send);
    thrown := false;
  }

  /** The chunks in order, each to all of `subs`. */
  method SendAll(store: SubscriberStore, chunks: seq<string>, subs: seq<int>, send: Attempt -> SendResult)
    returns (attempts: seq<Attempt>)
    requires store.Valid()
    modifies store
    ensures store.Valid()
    ensures attempts == Fanout(chunks, subs)
    ensures store.rows == Prune(old(store.rows), attempts, send)
  {
    attempts := [];
    for k := 0 to |chunks|
      invariant store.Valid()
      invariant attempts == Fanout(chunks[..k], subs)
      invariant store.rows == Prune(old(store.rows), attempts, send)
    {
      var sent, _ := SendChunk(store, k, chunks[k], subs, send);
      PruneAppend(old(store.rows), attempts, sent, send);
      assert chunks[..k + 1][..k] == chunks[..k];
      attempts := attempts + sent;
    }
    assert chunks[..|chunks|] == chunks;
  }

  /**
   * With the bot ready and at least one subscriber, every chunk goes to every
   * subscriber read at the start, whatever the earlier sends returned, so a
   * subscriber deleted for a bounce is still sent the later chunks; the
   * store loses exactly the bounced ids.
   */
  lemma NotifyCoversEveryone(rows: seq<int>, products: seq<Product>, send: Attempt -> SendResult)
    requires rows != []
    ensures |Plan(true, true, rows, products)| == |NotifyChunks(products)| * |rows|
    ensures forall k, j :: 0 <= k < |NotifyChunks(products)| && 0 <= j < |rows| ==>
      Attempt(k, rows[j], NotifyChunks(products)[k]) in Plan(true, true, rows, products)
    ensures forall x :: x in Prune(rows, Plan(true, true, rows, products), send) <==>
      x in rows && x !in Bounced(Plan(true, true, rows, products), send)
  {
    var chunks := NotifyChunks(products);
    var attempts := Plan(true, true, rows, products);
    assert attempts == Fanout(chunks, rows);
    FanoutShape(chunks, rows);
    forall k, j | 0 <= k < |chunks| && 0 <= j < |rows| ensures Attempt(k, rows[j], chunks[k]) in attempts {
      assert attempts[Slot(k, j, |rows|)] == Attempt(k, rows[j], chunks[k]);
    }
    PruneRemovesBounced(rows, attempts, send);
    KeepMembers(rows, Bounced(attempts, send));
  }

  /** With the bot missing, the store failing or nobody subscribed, nothing is sent and the store is untouched. */
  lemma NotifyEarlyReturn(botReady: bool, storeUp: bool, rows: seq<int>, products: seq<Product>, send: Attempt -> SendResult)
    requires !botReady || !storeUp || rows == []
    ensures Plan(botReady, storeUp, rows, products) == []
    ensures Prune(rows, Plan(botReady, storeUp, rows, products), send) == rows
  {
  }
}
