/**
  The grouping loops of two pages: deals by stage (apps/web/src/routes/deals.kanban.page.tsx)
  and calls by agent (apps/web/src/routes/reports.page.tsx).

  Both loops build the order-preserving filters, the first always (`DealsByStage`) and the second
  if and only if no agent is named like a member that every object inherits (`ByAgent`, with the
  failing input in `OneNameFailsReport`); filters over distinct keys lose and duplicate nothing
  (`GroupsPartition`, `TotalsAddUp`).
 */
module Grouping {
  import opened Options

  // ---------- filters ----------

  /** The elements with a given key, in order. */
  function Select<T>(items: seq<T>, key: T -> string, k: string): seq<T> {
    if items == [] then []
    else Select(items[..|items| - 1], key, k) + if key(items[|items| - 1]) == k then [items[|items| - 1]] else []
  }

  /** The elements whose key is one of `keys`, in order. */
  function Known<T>(items: seq<T>, key: T -> string, keys: seq<string>): seq<T> {
    if items == [] then []
    else Known(items[..|items| - 1], key, keys) + if key(items[|items| - 1]) in keys then [items[|items| - 1]] else []
  }

  /** The groups of all keys, one after another. */
  function AllGroups<T>(items: seq<T>, key: T -> string, keys: seq<string>): seq<T> {
    if keys == [] then [] else Select(items, key, keys[0]) + AllGroups(items, key, keys[1..])
  }

  ghost predicate Distinct(keys: seq<string>) {
    forall i, j :: 0 <= i < j < |keys| ==> keys[i] != keys[j]
  }

  lemma {:induction false} NoItemsNoGroups<T>(key: T -> string, keys: seq<string>)
    ensures AllGroups([], key, keys) == []
    decreases |keys|
  {
    if keys != [] { NoItemsNoGroups(key, keys[1..]); }
  }

  lemma CountSplits<T>(a: seq<T>, b: seq<T>, y: T)
    ensures multiset(a + b)[y] == multiset(a)[y] + multiset(b)[y]
  {
  }

  lemma SelectGrowsAtEnd<T>(items: seq<T>, x: T, key: T -> string, k: string)
    ensures Select(items + [x], key, k) == Select(items, key, k) + if key(x) == k then [x] else []
  {
    assert (items + [x])[..|items|] == items;
  }

  /** A further item is counted once more, in one group, if its key is known, and nowhere otherwise. */
  lemma {:induction false} OneMoreCount<T>(items: seq<T>, x: T, key: T -> string, keys: seq<string>, y: T)
    requires Distinct(keys)
    ensures multiset(AllGroups(items + [x], key, keys))[y] ==
            multiset(AllGroups(items, key, keys))[y] + if key(x) in keys && x == y then 1 else 0
    decreases |keys|
  {
    if keys != [] {
      var rest := keys[1..];
      assert keys == [keys[0]] + rest && (key(x) == keys[0] ==> key(x) !in rest);
      OneMoreCount(items, x, key, rest, y);
      SelectGrowsAtEnd(items, x, key, keys[0]);
      hide Select;
      CountSplits(Select(items + [x], key, keys[0]), AllGroups(items + [x], key, rest), y);
      CountSplits(Select(items, key, keys[0]), AllGroups(items, key, rest), y);
      CountSplits(Select(items, key, keys[0]), if key(x) == keys[0] then [x] else [], y);
    }
  }

  /** A further item joins exactly one group if its key is known, and none otherwise. */
  lemma OneMoreItem<T>(items: seq<T>, x: T, key: T -> string, keys: seq<string>)
    requires Distinct(keys)
    ensures multiset(AllGroups(items + [x], key, keys)) ==
            multiset(AllGroups(items, key, keys)) + if key(x) in keys then multiset{x} else multiset{}
  {
    forall y: T { OneMoreCount(items, x, key, keys, y); }
  }

  /** Over distinct keys the groups hold every item with a known key exactly as often as the list does. */
  lemma {:induction false} GroupsPartition<T>(items: seq<T>, key: T -> string, keys: seq<string>)
    requires Distinct(keys)
    ensures multiset(AllGroups(items, key, keys)) == multiset(Known(items, key, keys))
    decreases |items|
  {
    if items == [] {
      NoItemsNoGroups(key, keys);
    } else {
      var init, x := items[..|items| - 1], items[|items| - 1];
      GroupsPartition(init, key, keys);
      OneMoreItem(init, x, key, keys);
      assert items == init + [x];
    }
  }

  /** If every key is known, nothing is left out. */
  lemma {:induction false} AllKnown<T>(items: seq<T>, key: T -> string, keys: seq<string>)
    requires forall i :: 0 <= i < |items| ==> key(items[i]) in keys
    ensures Known(items, key, keys) == items
    decreases |items|
  {
    if items != [] { AllKnown(items[..|items| - 1], key, keys); }
  }

  // ---------- deals by stage ----------

  datatype Deal = Deal(id: string, stageId: string)

  const StageOf: Deal -> string := (d: Deal) => d.stageId

  /** One bucket for each stage of the pipeline, holding its deals in order; deals of other stages go nowhere. */
  method DealsByStage(stages: seq<string>, deals: seq<Deal>) returns (buckets: map<string, seq<Deal>>)
    ensures forall s :: s in buckets <==> s in stages
    ensures forall s :: s in stages ==> buckets[s] == Select(deals, StageOf, s)
    ensures forall s, d :: s in stages ==> (d in buckets[s] <==> d in deals && d.stageId == s)
  {
    buckets := map[];
    for i := 0 to |stages|
      invariant forall s :: s in buckets <==> s in stages[..i]
      invariant forall s :: s in buckets ==> buckets[s] == []
    {
      buckets := buckets[stages[i] := []];
      assert stages[..i + 1] == stages[..i] + [stages[i]];
    }
    assert stages[..|stages|] == stages;
    for i := 0 to |deals|
      invariant forall s :: s in buckets <==> s in stages
      invariant forall s :: s in stages ==> buckets[s] == Select(deals[..i], StageOf, s)
    {
      var deal := deals[i];
      assert deals[..i + 1][..i] == deals[..i];
      if deal.stageId in buckets {
        buckets := buckets[deal.stageId := buckets[deal.stageId] + [deal]];
      }
    }
    assert deals[..|deals|] == deals;
    forall s, d ensures d in Select(deals, StageOf, s) <==> d in deals && d.stageId == s {
      SelectHolds(deals, StageOf, s, d);
    }
  }

  // ---------- calls by agent ----------

  datatype CallRow = CallRow(agentName: Option<string>, agentId: Option<string>, durationSec: int)

  const UNKNOWN := "Necunoscut"

  /** c.agentName ?? c.agentId ?? 'Necunoscut' */
  function AgentKey(c: CallRow): string {
    if c.agentName.Some? then c.agentName.value else if c.agentId.Some? then c.agentId.value else UNKNOWN
  }

  /** A group holds exactly the items with its key. */
  lemma {:induction false} SelectHolds<T>(items: seq<T>, key: T -> string, k: string, x: T)
    ensures x in Select(items, key, k) <==> x in items && key(x) == k
    decreases |items|
  {
    if items != [] {
      var init := items[..|items| - 1];
      assert items == init + [items[|items| - 1]];
      SelectHolds(init, key, k, x);
    }
  }

  lemma {:induction false} SelectFinds<T>(items: seq<T>, key: T -> string, k: string)
    ensures Select(items, key, k) != [] <==> exists i :: 0 <= i < |items| && key(items[i]) == k
    decreases |items|
  {
    if items != [] {
      var init := items[..|items| - 1];
      SelectFinds(init, key, k);
      if i :| 0 <= i < |init| && key(init[i]) == k { assert key(items[i]) == k; }
      if i :| 0 <= i < |items| - 1 && key(items[i]) == k { assert key(init[i]) == k; }
    }
  }

  /** The accumulator: the groups made so far, as own properties of an object. */
  type Groups = map<string, seq<CallRow>>

  /** The names that a fresh object literal answers to without having them. */
  const OBJECT_MEMBERS: set<string> :=
    {"constructor", "hasOwnProperty", "isPrototypeOf", "propertyIsEnumerable", "toLocaleString", "toString", "valueOf",
     "__proto__", "__defineGetter__", "__defineSetter__", "__lookupGetter__", "__lookupSetter__"}

  /**
    The callback of `reduce`. An inherited member stands in the way of making the group, and has
    no `push`: the callback throws.
   */
  function Collect(inherited: set<string>, acc: Groups, c: CallRow): Option<Groups> {
    var key := AgentKey(c);
    if key in acc then Some(acc[key := acc[key] + [c]])
    else if key in inherited then None
    else Some(acc[key := [c]])
  }

  /** The whole reduction; `None` when it throws. */
  function Grouped(inherited: set<string>, items: seq<CallRow>): Option<Groups> {
    if items == [] then Some(map[])
    else
      var acc := Grouped(inherited, items[..|items| - 1]);
      if acc.None? then None else Collect(inherited, acc.value, items[|items| - 1])
  }

  /** Some call's agent goes by an inherited name. */
  ghost predicate Collides(inherited: set<string>, items: seq<CallRow>) {
    exists i :: 0 <= i < |items| && AgentKey(items[i]) in inherited
  }

  /** Exactly the agents of the calls, each with its own calls in order. */
  ghost predicate AreFilters(groups: Groups, items: seq<CallRow>) {
    && (forall k :: k in groups <==> Select(items, AgentKey, k) != [])
    && (forall k :: k in groups ==> groups[k] == Select(items, AgentKey, k))
  }

  lemma CollectExtends(inherited: set<string>, acc: Groups, init: seq<CallRow>, c: CallRow)
    requires AreFilters(acc, init) && Collect(inherited, acc, c).Some?
    ensures AreFilters(Collect(inherited, acc, c).value, init + [c])
  {
    forall k { SelectGrowsAtEnd(init, c, AgentKey, k); }
    hide Select, AgentKey;
  }

  /** The reduction throws if and only if an agent goes by an inherited name; otherwise it builds the filters. */
  lemma {:induction false} GroupedIff(inherited: set<string>, items: seq<CallRow>)
    ensures Grouped(inherited, items).None? <==> Collides(inherited, items)
    ensures Grouped(inherited, items).Some? ==> AreFilters(Grouped(inherited, items).value, items)
    decreases |items|
  {
    if items != [] {
      var init, c := items[..|items| - 1], items[|items| - 1];
      assert items == init + [c];
      GroupedIff(inherited, init);
      CollidesAtEnd(inherited, init, c);
      var acc := Grouped(inherited, init);
      if acc.Some? {
        SelectFinds(init, AgentKey, AgentKey(c));
        if Collect(inherited, acc.value, c).Some? { CollectExtends(inherited, acc.value, init, c); }
        hide AreFilters, Select, AgentKey;
      }
    }
  }

  lemma CollidesAtEnd(inherited: set<string>, init: seq<CallRow>, c: CallRow)
    ensures Collides(inherited, init + [c]) <==> Collides(inherited, init) || AgentKey(c) in inherited
  {
    var items := init + [c];
    assert items[|init|] == c;
    if i :| 0 <= i < |init| && AgentKey(init[i]) in inherited { assert items[i] == init[i]; }
  }

  lemma GroupedStep(inherited: set<string>, items: seq<CallRow>, i: nat, acc: Groups)
    requires i < |items| && Grouped(inherited, items[..i]) == Some(acc)
    ensures Grouped(inherited, items[..i + 1]) == Collect(inherited, acc, items[i])
  {
    assert items[..i + 1][..i] == items[..i];
  }

  /** Once the callback has thrown, no later call matters. */
  lemma {:induction false} ThrownStays(inherited: set<string>, items: seq<CallRow>, i: nat)
    requires i <= |items| && Grouped(inherited, items[..i]).None?
    ensures Grouped(inherited, items).None?
    decreases |items|
  {
    if i < |items| {
      var init := items[..|items| - 1];
      assert init[..i] == items[..i];
      ThrownStays(inherited, init, i);
    } else {
      assert items[..i] == items;
    }
  }

  /** The loop of `reduce` with its callback; `None` is the exception that fails the report. */
  method ByAgent(inherited: set<string>, items: seq<CallRow>) returns (groups: Option<Groups>)
    ensures groups == Grouped(inherited, items)
    ensures groups.None? <==> exists i :: 0 <= i < |items| && AgentKey(items[i]) in inherited
    ensures groups.Some? ==>
              && (forall k :: k in groups.value <==> exists i :: 0 <= i < |items| && AgentKey(items[i]) == k)
              && (forall k :: k in groups.value ==>
                    groups.value[k] == Select(items, AgentKey, k) && groups.value[k] != [])
  {
    GroupedIff(inherited, items);
    forall k { SelectFinds(items, AgentKey, k); }
    assert Collides(inherited, items) <==> exists i :: 0 <= i < |items| && AgentKey(items[i]) in inherited;
    assert Grouped(inherited, items[..0]) == Some(map[]);
    hide Select, AgentKey, Collides, Grouped;
    var acc: Groups := map[];
    for i := 0 to |items|
      invariant Grouped(inherited, items[..i]) == Some(acc)
    {
      var c := items[i];
      var key := AgentKey(c);
      GroupedStep(inherited, items, i, acc);
      ghost var was := acc;
      if key !in acc {
        if key in inherited {
          ThrownStays(inherited, items, i + 1);
          return None;
        }
        acc := acc[key := []];
      }
      acc := acc[key := acc[key] + [c]];
      assert Collect(inherited, was, c) == Some(acc) by {
        assert [] + [c] == [c];
        assert key !in was ==> was[key := [c]] == was[key := []][key := [c]];
      }
    }
    assert items[..|items|] == items;
    groups := Some(acc);
  }

  /**
    Whose group a call is in: its agent's name, or without one its agent's id, or without that
    the one group of unknown agents; and in no other group.
   */
  lemma GroupOfCall(inherited: set<string>, items: seq<CallRow>, c: CallRow, k: string)
    requires Grouped(inherited, items).Some?
    ensures k in Grouped(inherited, items).value && c in Grouped(inherited, items).value[k] <==>
            && c in items
            && (c.agentName == Some(k)
                || (c.agentName == None && c.agentId == Some(k))
                || (c.agentName == None && c.agentId == None && k == "Necunoscut"))
  {
    GroupedIff(inherited, items);
    SelectHolds(items, AgentKey, k, c);
    SelectFinds(items, AgentKey, k);
    if c in items { var i :| 0 <= i < |items| && items[i] == c; }
    hide Select, Grouped;
  }

  /** One call of an agent named "constructor", anywhere in the list, and the report of that day fails. */
  lemma OneNameFailsReport(before: seq<CallRow>, after: seq<CallRow>, agentId: Option<string>, durationSec: int)
    ensures Grouped(OBJECT_MEMBERS, before + [CallRow(Some("constructor"), agentId, durationSec)] + after) == None
  {
    var c := CallRow(Some("constructor"), agentId, durationSec);
    var items := before + [c] + after;
    assert items[|before|] == c && "constructor" in OBJECT_MEMBERS && AgentKey(c) == "constructor";
    hide OBJECT_MEMBERS, AgentKey;
    GroupedIff(OBJECT_MEMBERS, items);
  }

  function Total(items: seq<CallRow>): int {
    if items == [] then 0 else Total(items[..|items| - 1]) + items[|items| - 1].durationSec
  }

  /** The total is that of the seconds of each call. */
  lemma TotalGrows(items: seq<CallRow>, c: CallRow)
    ensures Total([]) == 0 && Total(items + [c]) == Total(items) + c.durationSec
  {
    assert (items + [c])[..|items|] == items;
  }

  /** The agent totals, added up over the keys shown. */
  function SumOfTotals(items: seq<CallRow>, keys: seq<string>): int {
    if keys == [] then 0 else Total(Select(items, AgentKey, keys[0])) + SumOfTotals(items, keys[1..])
  }

  lemma {:induction false} OneMoreCall(items: seq<CallRow>, c: CallRow, keys: seq<string>)
    requires Distinct(keys)
    ensures SumOfTotals(items + [c], keys) ==
            SumOfTotals(items, keys) + if AgentKey(c) in keys then c.durationSec else 0
    decreases |keys|
  {
    if keys != [] {
      var rest, group := keys[1..], Select(items, AgentKey, keys[0]);
      assert (items + [c])[..|items|] == items;
      assert (group + [c])[..|group|] == group;
      assert Total(group + [c]) == Total(group) + c.durationSec && group + [] == group;
      OneMoreCall(items, c, rest);
      assert keys == [keys[0]] + rest;
      assert AgentKey(c) == keys[0] ==> AgentKey(c) !in rest;
    }
  }

  /** The per-agent totals add up to the total over all calls. */
  lemma {:induction false} TotalsAddUp(items: seq<CallRow>, keys: seq<string>)
    requires Distinct(keys) && forall i :: 0 <= i < |items| ==> AgentKey(items[i]) in keys
    ensures SumOfTotals(items, keys) == Total(items)
    decreases |items|
  {
    if items == [] {
      NoCallsNoTotals(keys);
    } else {
      hide Select;
      var init, c := items[..|items| - 1], items[|items| - 1];
      assert items == init + [c];
      TotalsAddUp(init, keys);
      OneMoreCall(init, c, keys);
    }
  }

  lemma {:induction false} NoCallsNoTotals(keys: seq<string>)
    ensures SumOfTotals([], keys) == 0
    decreases |keys|
  {
    if keys != [] { NoCallsNoTotals(keys[1..]); }
  }

  // ---------- minutes and seconds ----------

  function Decimal(n: nat): string {
    if n < 10 then [('0' as int + n) as char] else Decimal(n / 10) + [('0' as int + n % 10) as char]
  }

  function Pad2(s: string): string {
    if |s| == 0 then "00" else if |s| == 1 then "0" + s else s
  }

  /** The MM:SS text of a total. */
  function MinutesAndSeconds(total: nat): string {
    Pad2(Decimal(total / 60)) + ":" + Pad2(Decimal(total % 60))
  }

  function ReadDecimal(s: string): int {
    if s == "" then 0 else 10 * ReadDecimal(s[..|s| - 1]) + (s[|s| - 1] as int - '0' as int)
  }

  lemma {:induction false} DecimalReadsBack(n: nat)
    ensures ReadDecimal(Decimal(n)) == n && |Decimal(n)| >= 1
    ensures (n < 10 <==> |Decimal(n)| == 1) && (n < 100 ==> |Decimal(n)| <= 2)
    decreases n
  {
    if n >= 10 {
      DecimalReadsBack(n / 10);
      assert Decimal(n)[..|Decimal(n)| - 1] == Decimal(n / 10);
    } else {
      assert Decimal(n)[..0] == "";
    }
  }

  lemma PadReadsBack(n: nat)
    ensures ReadDecimal(Pad2(Decimal(n))) == n && (n < 100 ==> |Pad2(Decimal(n))| == 2)
  {
    DecimalReadsBack(n);
    if n < 10 {
      var s := Pad2(Decimal(n));
      assert s[..1] == "0" && "0"[..0] == "";
      assert ReadDecimal("0") == 0;
      assert Decimal(n)[..0] == "";
    }
  }

  /** The total reads back from its MM:SS text: the last two digits are seconds, those before the colon minutes. */
  lemma MinutesAndSecondsReadBack(total: nat)
    ensures var s := MinutesAndSeconds(total);
            && |s| >= 5 && s[|s| - 3] == ':'
            && 60 * ReadDecimal(s[..|s| - 3]) + ReadDecimal(s[|s| - 2..]) == total
            && 0 <= ReadDecimal(s[|s| - 2..]) < 60
  {
    var m, sec := Pad2(Decimal(total / 60)), Pad2(Decimal(total % 60));
    PadReadsBack(total / 60);
    PadReadsBack(total % 60);
    DecimalReadsBack(total / 60);
    var s := m + ":" + sec;
    assert s[..|s| - 3] == m && s[|s| - 2..] == sec;
  }
}
