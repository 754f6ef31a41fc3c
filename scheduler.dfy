/**
 * The cron callback of the server: a tick is skipped while a cycle runs;
 * otherwise it flips `toggle`, runs the principal-page branch or the
 * full-scrape branch, and may notify subscribers, remembering the Tokyo
 * date of the last notification that went through.
 */
module Scheduler {
  import opened Wrappers
  import opened Products
  import opened Deduplication
  import opened Scraper
  import Dispatch

  /** The scraper entry points a cycle calls. */
  datatype Scrape = Principal | Other | All

  /** What a cycle did: the scrapes, in order, and the list handed to `notifyAvailable`, if any. */
  datatype CyclePlan = CyclePlan(scrapes: seq<Scrape>, notify: Option<seq<Product>>)

  /** The module-level `isRunning`, `toggle` and `lastSentDateJST` (`None` for `null`). */
  datatype SchedState = SchedState(isRunning: bool, toggle: bool, lastSent: Option<string>)

  datatype TickResult = TickResult(state: SchedState, plan: CyclePlan)

  /** Send when nothing went out yet today, or when something is in stock now. */
  predicate ShouldSend(lastSent: Option<string>, today: string, ps: seq<Product>)
  {
    lastSent != Some(today) || AnyAvailable(ps)
  }

  /** The toggle-true branch: principal page first; stop if it is empty; else add the other pages and dedup. */
  function BranchA(web: Web, lastSent: Option<string>, today: string): CyclePlan
  {
    var principal := PrincipalRecords(web);
    if principal == [] then CyclePlan([Principal], None)
    else
      var unique := Dedup(principal + OtherRecords(web));
      CyclePlan([Principal, Other], if ShouldSend(lastSent, today, unique) then Some(unique) else None)
  }

  /** The toggle-false branch: the full scrape; stop if it is empty. */
  function BranchB(web: Web, lastSent: Option<string>, today: string): CyclePlan
  {
    var products := AllRecords(web);
    if products == [] then CyclePlan([All], None)
    else CyclePlan([All], if ShouldSend(lastSent, today, products) then Some(products) else None)
  }

  function CycleSpec(toggle: bool, web: Web, lastSent: Option<string>, today: string): CyclePlan
  {
    if toggle then BranchA(web, lastSent, today) else BranchB(web, lastSent, today)
  }

  /** `lastSentDateJST = todayJST` runs only when `notifyAvailable` returned normally. */
  function LastSentAfter(lastSent: Option<string>, today: string, plan: CyclePlan, notifyThrows: bool): Option<string>
  {
    if plan.notify.Some? && !notifyThrows then Some(today) else lastSent
  }

  /**
   * One tick of the cron callback, run to completion. `today` stands for
   * `getTokyoDateString()`, `web` for the pages, `notifyThrows` for
   * `notifyAvailable` rejecting.
   */
  function TickSpec(s: SchedState, web: Web, today: string, notifyThrows: bool): TickResult
  {
    if s.isRunning then TickResult(s, CyclePlan([], None))
    else
      var plan := CycleSpec(!s.toggle, web, s.lastSent, today);
      TickResult(SchedState(false, !s.toggle, LastSentAfter(s.lastSent, today, plan, notifyThrows)), plan)
  }

  class Scheduler {
    var isRunning: bool
    var toggle: bool
    var lastSentDateJST: Option<string>

    /** The state at process start. */
    constructor ()
      ensures !isRunning && !toggle && lastSentDateJST == None
    {
      isRunning := false;
      toggle := false;
      lastSentDateJST := None;
    }

    function State(): SchedState
      reads this
    {
      SchedState(isRunning, toggle, lastSentDateJST)
    }

    /** The synchronous start of the callback: skip if running, else mark running and flip the toggle. */
    method Begin() returns (started: bool)
      modifies this
      ensures started <==> !old(isRunning)
      ensures !started ==> State() == old(State())
      ensures started ==> State() == SchedState(true, !old(toggle), old(lastSentDateJST))
    {
      if isRunning {
        return false;
      }
      isRunning := true;
      toggle := !toggle;
      started := true;
    }

    /**
     * The `try` block with its `finally`: the branch chosen by `toggle`,
     * the notification when `shouldSend`, and `isRunning` cleared on every
     * path, early returns included.
     */
    method RunCycle(web: Web, today: string, store: Dispatch.SubscriberStore, botReady: bool, storeUp: bool,
                    send: Dispatch.Attempt -> Dispatch.SendResult)
      returns (plan: CyclePlan, attempts: seq<Dispatch.Attempt>)
      requires store.Valid()
      modifies this, store
      ensures store.Valid()
      ensures plan == CycleSpec(old(toggle), web, old(lastSentDateJST), today)
      ensures State() == SchedState(false, old(toggle),
                                    LastSentAfter(old(lastSentDateJST), today, plan, botReady && !storeUp))
      ensures attempts == (if plan.notify.Some? then Dispatch.Plan(botReady, storeUp, old(store.rows), plan.notify.value) else [])
      ensures store.rows == Dispatch.Prune(old(store.rows), attempts, send)
    {
      var products: seq<Product> := [];
      var scrapes: seq<Scrape>;
      var proceed := false;
      if toggle {
        var principalProducts := ScrapePrincipalProducts(web);
        scrapes := [Principal];
        if |principalProducts| > 0 {
          var otherProducts := ScrapeOtherProducts(web);
          scrapes := scrapes + [Other];
          products := DedupByKey(principalProducts + otherProducts);
          proceed := true;
        }
      } else {
        products := ScrapeAllProducts(web);
        scrapes := [All];
        proceed := |products| > 0;
      }
      ghost var spec := CycleSpec(toggle, web, lastSentDateJST, today);
      assert spec.scrapes == scrapes;
      assert spec.notify == if proceed && ShouldSend(lastSentDateJST, today, products) then Some(products) else None;
      var notify: Option<seq<Product>> := None;
      attempts := [];
      if proceed && (lastSentDateJST != Some(today) || AnyAvailable(products)) {
        notify := Some(products);
        var thrown;
        thrown, attempts := Dispatch.NotifyAvailable(store, botReady, storeUp, products, send);
        if !thrown {
          lastSentDateJST := Some(today);
        }
      }
      plan := CyclePlan(scrapes, notify);
      isRunning := false;
    }

    /** The whole callback when no other tick interleaves with it. */
    method Tick(web: Web, today: string, store: Dispatch.SubscriberStore, botReady: bool, storeUp: bool,
                send: Dispatch.Attempt -> Dispatch.SendResult)
      returns (plan: CyclePlan, attempts: seq<Dispatch.Attempt>)
      requires store.Valid()
      modifies this, store
      ensures store.Valid()
      ensures TickResult(State(), plan) == TickSpec(old(State()), web, today, botReady && !storeUp)
      ensures attempts == (if plan.notify.Some? then Dispatch.Plan(botReady, storeUp, old(store.rows), plan.notify.value) else [])
      ensures store.rows == Dispatch.Prune(old(store.rows), attempts, send)
    {
      var started := Begin();
      if !started {
        plan := CyclePlan([], None);
        attempts := [];
        return;
      }
      plan, attempts := RunCycle(web, today, store, botReady, storeUp, send);
    }
  }

  /** A tick while a cycle is running changes nothing and scrapes and sends nothing. */
  lemma SkipWhileRunning(s: SchedState, web: Web, today: string, notifyThrows: bool)
    requires s.isRunning
    ensures TickSpec(s, web, today, notifyThrows).state == s
    ensures TickSpec(s, web, today, notifyThrows).plan.scrapes == []
    ensures TickSpec(s, web, today, notifyThrows).plan.notify == None
  {
  }

  /**
   * A tick that runs flips `toggle` and ends with `isRunning` false; the date
   * moves only to today, and exactly when a notification went through.
   */
  lemma TickTransition(s: SchedState, web: Web, today: string, notifyThrows: bool)
    requires !s.isRunning
    ensures var r := TickSpec(s, web, today, notifyThrows);
      !r.state.isRunning && r.state.toggle == !s.toggle &&
      (r.state.lastSent == Some(today) <==> s.lastSent == Some(today) || (r.plan.notify.Some? && !notifyThrows)) &&
      (r.state.lastSent != s.lastSent ==> r.plan.notify.Some? && !notifyThrows)
  {
  }

  /**
   * A cycle notifies exactly when its list is non-empty and `shouldSend`
   * holds of it; the toggle-true branch judges the list only once the
   * principal page gave records.
   */
  lemma NotifyExactlyWhenShouldSend(toggle: bool, web: Web, lastSent: Option<string>, today: string)
    ensures var plan := CycleSpec(toggle, web, lastSent, today);
      plan.notify.Some? <==>
        (if toggle then PrincipalRecords(web) != [] && ShouldSend(lastSent, today, Dedup(PrincipalRecords(web) + OtherRecords(web)))
         else AllRecords(web) != [] && ShouldSend(lastSent, today, AllRecords(web)))
    ensures var plan := CycleSpec(toggle, web, lastSent, today);
      plan.notify.Some? ==>
        (plan.notify.value != [] &&
         plan.notify.value == (if toggle then Dedup(PrincipalRecords(web) + OtherRecords(web)) else AllRecords(web)))
  {
    if toggle && PrincipalRecords(web) != [] {
      var all := PrincipalRecords(web) + OtherRecords(web);
      DedupKeys(all);
      assert all[0] in all;
      assert Key(all[0]) in KeysOf(all);
    }
  }

  /** An empty principal page ends the toggle-true branch before the other pages and without a notification. */
  lemma EmptyPrincipalStops(web: Web, lastSent: Option<string>, today: string)
    requires PrincipalRecords(web) == []
    ensures CycleSpec(true, web, lastSent, today) == CyclePlan([Principal], None)
  {
  }

  /** The toggle-true branch's inline dedup gives the same list as the full scrape. */
  lemma BranchesAgree(web: Web)
    ensures Dedup(PrincipalRecords(web) + OtherRecords(web)) == AllRecords(web)
  {
    PrincipalIsCatalog(web);
  }

  /** From the process-start state the first tick flips `toggle` to true and scrapes the principal page first. */
  lemma FirstTickPrincipal(web: Web, today: string, notifyThrows: bool)
    ensures var r := TickSpec(SchedState(false, false, None), web, today, notifyThrows);
      r.state.toggle && !r.state.isRunning && |r.plan.scrapes| >= 1 && r.plan.scrapes[0] == Principal
  {
  }

  /** The first notification of a day goes out when the list is non-empty, even with nothing in stock. */
  lemma FirstOfDaySends(web: Web, lastSent: Option<string>, today: string)
    requires lastSent != Some(today) && AllRecords(web) != []
    ensures CycleSpec(false, web, lastSent, today).notify == Some(AllRecords(web))
    ensures PrincipalRecords(web) != [] ==> CycleSpec(true, web, lastSent, today).notify == Some(AllRecords(web))
  {
    if PrincipalRecords(web) != [] {
      BranchesAgree(web);
    }
  }

  /**
   * `notifyAvailable` returning early for a missing bot does not throw, so
   * a cycle that decides to send still records today's date.
   */
  lemma EarlyReturnStillRecords(s: SchedState, web: Web, today: string, botReady: bool, storeUp: bool, rows: seq<int>)
    requires !botReady || (storeUp && rows == [])
    ensures var r := TickSpec(s, web, today, botReady && !storeUp);
      r.plan.notify.Some? ==> Dispatch.Plan(botReady, storeUp, rows, r.plan.notify.value) == [] && r.state.lastSent == Some(today)
  {
  }

  /** The ticks of one day: the pages each tick sees and whether its notification throws. */
  datatype TickInput = TickInput(web: Web, notifyThrows: bool)

  function Run(s: SchedState, today: string, ticks: seq<TickInput>): SchedState
    decreases |ticks|
  {
    if ticks == [] then s
    else Run(TickSpec(s, ticks[0].web, today, ticks[0].notifyThrows).state, today, ticks[1..])
  }

  /** How many of `ticks` notify. */
  function Notifications(s: SchedState, today: string, ticks: seq<TickInput>): nat
    decreases |ticks|
  {
    if ticks == [] then 0
    else
      var r := TickSpec(s, ticks[0].web, today, ticks[0].notifyThrows);
      (if r.plan.notify.Some? then 1 else 0) + Notifications(r.state, today, ticks[1..])
  }

  /** After today's notification, a tick that finds nothing in stock sends nothing and keeps the date. */
  lemma QuietTick(s: SchedState, web: Web, today: string, notifyThrows: bool)
    requires s.lastSent == Some(today) && !AnyAvailable(AllRecords(web))
    ensures TickSpec(s, web, today, notifyThrows).plan.notify == None
    ensures TickSpec(s, web, today, notifyThrows).state.lastSent == Some(today)
  {
    if !s.isRunning && !s.toggle && PrincipalRecords(web) != [] {
      BranchesAgree(web);
    }
  }

  /**
   * Once today's notification went out, later ticks of the same day that
   * find nothing in stock send nothing and keep the date.
   */
  lemma {:induction false} QuietDay(s: SchedState, today: string, ticks: seq<TickInput>)
    requires s.lastSent == Some(today)
    requires forall k :: 0 <= k < |ticks| ==> !AnyAvailable(AllRecords(ticks[k].web))
    ensures Run(s, today, ticks).lastSent == Some(today)
    ensures Notifications(s, today, ticks) == 0
    decreases |ticks|
  {
    if ticks != [] {
      var t := ticks[0];
      QuietTick(s, t.web, today, t.notifyThrows);
      var r := TickSpec(s, t.web, today, t.notifyThrows);
      assert forall k :: 0 <= k < |ticks[1..]| ==> ticks[1..][k] == ticks[k + 1];
      QuietDay(r.state, today, ticks[1..]);
    }
  }
}
