/** Joining fare legs into transfers (`join_transfers`). */
module Fares {
  import opened Basics

  datatype FareLeg = FareLeg(source: nat, id: nat)

  datatype Rule = Rule(id: nat, transferCount: int)

  /** Whether a rule matches: the rule, the first leg of the group and two adjacent legs. */
  type Matches = (Rule, FareLeg, FareLeg, FareLeg) -> bool

  datatype Transfer = Transfer(rule: Option<Rule>, legs: seq<FareLeg>)

  /** The legs from `lo` up to `hi`, and the rule that joins them. */
  datatype Window = Window(lo: nat, hi: nat, rule: Option<Rule>)

  /** A signed 8-bit number, as transfers are counted. */
  function Wrap8(x: int): int { (x + 128) % 256 - 128 }

  /** How many transfers a count allows: a negative one allows as many as it takes
      to count down through the smallest 8-bit number to zero. */
  function Limit(r: Rule): int { if r.transferCount >= 0 then r.transferCount else r.transferCount + 256 }

  ghost predicate RulesOk(rules: seq<seq<Rule>>) {
    forall s, q :: 0 <= s < |rules| && 0 <= q < |rules[s]| ==>
      -128 <= rules[s][q].transferCount < 128 && rules[s][q].transferCount != 0
  }

  ghost predicate LegsOk(legs: seq<FareLeg>, rules: seq<seq<Rule>>) {
    forall i :: 0 <= i < |legs| ==> legs[i].source < |rules|
  }

  /** The legs before position `i` are the last of their source. */
  predicate AtRangeEnd(legs: seq<FareLeg>, i: nat)
    requires 0 < i <= |legs|
  {
    i == |legs| || legs[i].source != legs[i - 1].source
  }

  /** The first rule that matches leg `i` and its successor, or the number of rules. */
  ghost predicate IsFirstMatch(rules: seq<Rule>, m: Matches, legs: seq<FareLeg>, i: nat, q: nat)
    requires i + 1 < |legs|
  {
    && q <= |rules|
    && (forall p :: 0 <= p < q ==> !m(rules[p], legs[i], legs[i], legs[i + 1]))
    && (q < |rules| ==> m(rules[q], legs[i], legs[i], legs[i + 1]))
  }

  /** All adjacent legs of the window match its rule, seen from its first leg. */
  ghost predicate AllMatch(legs: seq<FareLeg>, m: Matches, r: Rule, lo: nat, hi: nat)
    requires hi <= |legs|
  {
    forall k :: lo <= k < hi - 1 ==> m(r, legs[lo], legs[k], legs[k + 1])
  }

  /** What a window is, given where it starts: without a rule a single leg that no
      rule joins with the next one; else the longest run that the first matching rule
      and its count allow. All legs are of one source. */
  ghost predicate WindowOk(legs: seq<FareLeg>, rules: seq<seq<Rule>>, m: Matches, w: Window) {
    && w.lo < w.hi <= |legs| && LegsOk(legs, rules)
    && (forall k :: w.lo <= k < w.hi ==> legs[k].source == legs[w.lo].source)
    && match w.rule
       case None =>
         && w.hi == w.lo + 1
         && (AtRangeEnd(legs, w.hi) || IsFirstMatch(rules[legs[w.lo].source], m, legs, w.lo, |rules[legs[w.lo].source]|))
       case Some(r) =>
         && w.lo + 1 < w.hi <= w.lo + 1 + Limit(r)
         && (exists q :: 0 <= q < |rules[legs[w.lo].source]| && rules[legs[w.lo].source][q] == r &&
               IsFirstMatch(rules[legs[w.lo].source], m, legs, w.lo, q))
         && AllMatch(legs, m, r, w.lo, w.hi)
         && (AtRangeEnd(legs, w.hi) || w.hi == w.lo + 1 + Limit(r) || !m(r, legs[w.lo], legs[w.hi - 1], legs[w.hi]))
  }

  /** Where the next window starts: at the last leg of a group once more, unless the
      group ends with its source. */
  function NextStart(legs: seq<FareLeg>, w: Window): int
    requires 0 < w.hi <= |legs|
  {
    if w.rule.Some? && !AtRangeEnd(legs, w.hi) then w.hi - 1 else w.hi
  }

  /** A gapless chain of windows from the first leg; the next one would start at `next`. */
  ghost predicate IsChain(legs: seq<FareLeg>, rules: seq<seq<Rule>>, m: Matches, ws: seq<Window>, next: int) {
    && (forall i :: 0 <= i < |ws| ==> WindowOk(legs, rules, m, ws[i]))
    && (forall i :: 0 <= i < |ws| - 1 ==> ws[i + 1].lo == NextStart(legs, ws[i]))
    && (if ws == [] then next == 0 else ws[0].lo == 0 && next == NextStart(legs, ws[|ws| - 1]))
  }

  /** The output lists the legs of its windows. */
  ghost predicate Shows(legs: seq<FareLeg>, ws: seq<Window>, ts: seq<Transfer>) {
    |ts| == |ws| && forall i :: 0 <= i < |ws| ==>
      ws[i].lo <= ws[i].hi <= |legs| && ts[i] == Transfer(ws[i].rule, legs[ws[i].lo..ws[i].hi])
  }

  /** The output is a chain of windows that has come as far as `next`. */
  ghost predicate IsJoined(legs: seq<FareLeg>, rules: seq<seq<Rule>>, m: Matches, ts: seq<Transfer>, next: int) {
    exists ws: seq<Window> :: IsChain(legs, rules, m, ws, next) && Shows(legs, ws, ts)
  }

  // ---------- what a complete chain means ----------

  /** Every leg occurs. */
  lemma {:induction false} EveryLegOccurs(legs: seq<FareLeg>, rules: seq<seq<Rule>>, m: Matches, ws: seq<Window>, next: int, i: nat)
    returns (k: nat)
    requires IsChain(legs, rules, m, ws, next) && i < next
    ensures k < |ws| && ws[k].lo <= i < ws[k].hi
    decreases |ws|
  {
    k := |ws| - 1;
    if i < ws[k].lo {
      k := EveryLegOccurs(legs, rules, m, ws[..k], ws[k].lo, i);
    }
  }

  /** Windows come in order and overlap in the last leg of the former at most. */
  lemma {:induction false} WindowsInOrder(legs: seq<FareLeg>, rules: seq<seq<Rule>>, m: Matches, ws: seq<Window>, next: int, i: nat, j: nat)
    requires IsChain(legs, rules, m, ws, next) && i < j < |ws|
    ensures ws[i].hi - 1 <= ws[j].lo && ws[i].hi <= ws[j].hi
    decreases j
  {
    if i < j - 1 {
      WindowsInOrder(legs, rules, m, ws, next, i, j - 1);
    }
  }

  /** Two windows in a row share a leg exactly if the first one is a group whose source
      goes on: its last leg is tried again with the leg after it. Else the second one
      starts with the leg after the first. */
  lemma WindowsMeet(legs: seq<FareLeg>, rules: seq<seq<Rule>>, m: Matches, ws: seq<Window>, next: int, i: nat)
    requires IsChain(legs, rules, m, ws, next) && i + 1 < |ws|
    ensures 0 < ws[i].hi < |legs|
    ensures var hi := ws[i].hi;
      ws[i + 1].lo == if ws[i].rule.Some? && legs[hi].source == legs[hi - 1].source then hi - 1 else hi
  {
    assert WindowOk(legs, rules, m, ws[i]) && WindowOk(legs, rules, m, ws[i + 1]);
    hide IsFirstMatch, AllMatch, LegsOk;
    assert ws[i + 1].lo == NextStart(legs, ws[i]);
  }

  /** Where a window starts determines it. */
  lemma WindowIsDetermined(legs: seq<FareLeg>, rules: seq<seq<Rule>>, m: Matches, v: Window, w: Window)
    requires RulesOk(rules) && WindowOk(legs, rules, m, v) && WindowOk(legs, rules, m, w) && v.lo == w.lo
    ensures v == w
  {
    var rs := rules[legs[v.lo].source];
    if v.rule.Some? && w.rule.Some? {
      var p :| 0 <= p < |rs| && rs[p] == v.rule.value && IsFirstMatch(rs, m, legs, v.lo, p);
      var q :| 0 <= q < |rs| && rs[q] == w.rule.value && IsFirstMatch(rs, m, legs, w.lo, q);
      assert p == q;
      LongerWindow(legs, rules, m, v, w);
      LongerWindow(legs, rules, m, w, v);
    }
  }

  lemma LongerWindow(legs: seq<FareLeg>, rules: seq<seq<Rule>>, m: Matches, v: Window, w: Window)
    requires WindowOk(legs, rules, m, v) && WindowOk(legs, rules, m, w)
    requires v.lo == w.lo && v.rule == w.rule && v.rule.Some?
    ensures v.hi >= w.hi
  {
  }

  /** There is only one complete chain: the windows are all that the rules and the
      legs leave open. */
  lemma {:induction false} ChainIsDetermined(legs: seq<FareLeg>, rules: seq<seq<Rule>>, m: Matches, vs: seq<Window>, ws: seq<Window>, next: int)
    requires RulesOk(rules) && IsChain(legs, rules, m, vs, next) && IsChain(legs, rules, m, ws, |legs|)
    requires |vs| <= |ws|
    ensures vs == ws[..|vs|]
    decreases |vs|
  {
    hide WindowOk, RulesOk;
    if vs != [] {
      var n := |vs| - 1;
      ChainIsDetermined(legs, rules, m, vs[..n], ws, vs[n].lo);
      assert n > 0 ==> ws[n - 1] == vs[n - 1];
      WindowIsDetermined(legs, rules, m, vs[n], ws[n]);
      assert vs == vs[..n] + [vs[n]];
    }
  }

  /** Legs, rules and matches determine the whole output. */
  lemma OutputIsDetermined(legs: seq<FareLeg>, rules: seq<seq<Rule>>, m: Matches, ts: seq<Transfer>, us: seq<Transfer>)
    requires RulesOk(rules) && IsJoined(legs, rules, m, ts, |legs|) && IsJoined(legs, rules, m, us, |legs|)
    ensures ts == us
  {
    hide RulesOk, IsChain;
    var vs: seq<Window> :| IsChain(legs, rules, m, vs, |legs|) && Shows(legs, vs, ts);
    var ws: seq<Window> :| IsChain(legs, rules, m, ws, |legs|) && Shows(legs, ws, us);
    if |vs| <= |ws| {
      ChainIsDetermined(legs, rules, m, vs, ws, |legs|);
      if |vs| < |ws| { ChainGoesOn(legs, rules, m, ws, |vs|, |legs|); }
    } else {
      ChainIsDetermined(legs, rules, m, ws, vs, |legs|);
      ChainGoesOn(legs, rules, m, vs, |ws|, |legs|);
    }
  }

  /** A chain that has a continuation has not come to the end of the legs. */
  lemma ChainGoesOn(legs: seq<FareLeg>, rules: seq<seq<Rule>>, m: Matches, ws: seq<Window>, n: nat, next: int)
    requires n < |ws| && IsChain(legs, rules, m, ws, |legs|) && IsChain(legs, rules, m, ws[..n], next)
    ensures next < |legs|
  {
    assert WindowOk(legs, rules, m, ws[n]);
    if n > 0 {
      assert ws[n - 1 + 1].lo == NextStart(legs, ws[n - 1]);
    }
  }

  /** The output keeps every leg. */
  lemma OutputKeepsLegs(legs: seq<FareLeg>, rules: seq<seq<Rule>>, m: Matches, ts: seq<Transfer>, i: nat)
    requires IsJoined(legs, rules, m, ts, |legs|) && i < |legs|
    ensures exists k :: 0 <= k < |ts| && legs[i] in ts[k].legs
  {
    hide IsChain;
    var ws: seq<Window> :| IsChain(legs, rules, m, ws, |legs|) && Shows(legs, ws, ts);
    var k := EveryLegOccurs(legs, rules, m, ws, |legs|, i);
    assert ts[k].legs[i - ws[k].lo] == legs[i];
  }

  // ---------- the joiner ----------

  /** `find_if` over the rules of a source. */
  method FindRule(rules: seq<Rule>, m: Matches, legs: seq<FareLeg>, i: nat) returns (q: nat)
    requires i + 1 < |legs|
    ensures IsFirstMatch(rules, m, legs, i, q)
  {
    q := 0;
    while q < |rules| && !m(rules[q], legs[i], legs[i], legs[i + 1])
      invariant q <= |rules| && forall p :: 0 <= p < q ==> !m(rules[p], legs[i], legs[i], legs[i + 1])
    {
      q := q + 1;
    }
  }

  /** The legs from `from` up to `to` are all legs of one source in a row. */
  ghost predicate IsRange(legs: seq<FareLeg>, from: nat, to: nat) {
    && from < to <= |legs| && AtRangeEnd(legs, to)
    && forall k :: from <= k < to ==> legs[k].source == legs[from].source
  }

  /** Counting down reaches zero exactly after that many transfers. */
  lemma CountDown(r: Rule, n: nat)
    requires -128 <= r.transferCount < 128 && n <= Limit(r)
    ensures Wrap8(r.transferCount - n) == 0 <==> n == Limit(r)
    ensures Wrap8(Wrap8(r.transferCount - n) - 1) == Wrap8(r.transferCount - (n + 1))
    ensures Wrap8(r.transferCount) == r.transferCount
  {
  }

  /** Collects legs from `first` on while the rule matches and transfers remain. It
      makes progress, and with it the joiner, exactly if the count is not zero. */
  method CollectMatched(legs: seq<FareLeg>, m: Matches, r: Rule, first: nat, to: nat) returns (matched: seq<FareLeg>, it: nat)
    requires first + 1 < to <= |legs| && m(r, legs[first], legs[first], legs[first + 1])
    requires -128 <= r.transferCount < 128
    ensures first <= it < to && (first < it <==> r.transferCount != 0)
    ensures matched == legs[first..it + 1] && it - first <= Limit(r) && AllMatch(legs, m, r, first, it + 1)
    ensures it + 1 == to || it - first == Limit(r) || !m(r, legs[first], legs[it], legs[it + 1])
  {
    hide Wrap8;
    CountDown(r, 0);
    matched, it := [legs[first]], first;
    var remaining := r.transferCount;
    while it + 1 < to && remaining != 0
      invariant first <= it < to && matched == legs[first..it + 1] && it - first <= Limit(r)
      invariant remaining == Wrap8(r.transferCount - (it - first)) && AllMatch(legs, m, r, first, it + 1)
      decreases (to as int) - it
    {
      if !m(r, legs[first], legs[it], legs[it + 1]) {
        break;
      }
      CountDown(r, it - first);
      matched := matched + [legs[it + 1]];
      it, remaining := it + 1, Wrap8(remaining - 1);
    }
    CountDown(r, it - first);
  }

  lemma SingleIsWindow(legs: seq<FareLeg>, rules: seq<seq<Rule>>, m: Matches, i: nat)
    requires LegsOk(legs, rules) && i < |legs|
    requires AtRangeEnd(legs, i + 1) || IsFirstMatch(rules[legs[i].source], m, legs, i, |rules[legs[i].source]|)
    ensures WindowOk(legs, rules, m, Window(i, i + 1, None))
  {
  }

  lemma GroupIsWindow(legs: seq<FareLeg>, rules: seq<seq<Rule>>, m: Matches, from: nat, to: nat, first: nat, it: nat, q: nat)
    requires LegsOk(legs, rules) && IsRange(legs, from, to) && from <= first < it < to
    requires q < |rules[legs[first].source]| && IsFirstMatch(rules[legs[first].source], m, legs, first, q)
    requires var r := rules[legs[first].source][q];
      && it - first <= Limit(r) && AllMatch(legs, m, r, first, it + 1)
      && (it + 1 == to || it - first == Limit(r) || !m(r, legs[first], legs[it], legs[it + 1]))
    ensures WindowOk(legs, rules, m, Window(first, it + 1, Some(rules[legs[first].source][q])))
  {
  }

  lemma ChainGrows(legs: seq<FareLeg>, rules: seq<seq<Rule>>, m: Matches, ws: seq<Window>, ts: seq<Transfer>, w: Window)
    requires IsChain(legs, rules, m, ws, w.lo) && WindowOk(legs, rules, m, w) && Shows(legs, ws, ts)
    ensures IsChain(legs, rules, m, ws + [w], NextStart(legs, w))
    ensures Shows(legs, ws + [w], ts + [Transfer(w.rule, legs[w.lo..w.hi])])
    ensures w.hi == w.lo + 1 ==> legs[w.lo..w.hi] == [legs[w.lo]]
  {
    hide LegsOk, IsFirstMatch, AllMatch, AtRangeEnd;
  }

  lemma NothingIsJoined(legs: seq<FareLeg>, rules: seq<seq<Rule>>, m: Matches)
    ensures IsJoined(legs, rules, m, [], 0)
  {
    assert IsChain(legs, rules, m, [], 0) && Shows(legs, [], []);
  }

  lemma JoinedGrows(legs: seq<FareLeg>, rules: seq<seq<Rule>>, m: Matches, ts: seq<Transfer>, w: Window)
    requires IsJoined(legs, rules, m, ts, w.lo) && WindowOk(legs, rules, m, w)
    ensures IsJoined(legs, rules, m, ts + [Transfer(w.rule, legs[w.lo..w.hi])], NextStart(legs, w))
    ensures w.hi == w.lo + 1 ==> legs[w.lo..w.hi] == [legs[w.lo]]
  {
    hide IsChain, Shows;
    var ws: seq<Window> :| IsChain(legs, rules, m, ws, w.lo) && Shows(legs, ws, ts);
    ChainGrows(legs, rules, m, ws, ts, w);
  }

  /** The legs of one source. */
  method JoinRange(legs: seq<FareLeg>, rules: seq<seq<Rule>>, m: Matches, from: nat, to: nat,
                   ts0: seq<Transfer>)
    returns (ts: seq<Transfer>)
    requires LegsOk(legs, rules) && RulesOk(rules) && IsRange(legs, from, to)
    requires IsJoined(legs, rules, m, ts0, from)
    ensures IsJoined(legs, rules, m, ts, to)
  {
    hide IsJoined, WindowOk, AllMatch, IsFirstMatch, Limit;
    ts := ts0;
    if to - from == 1 {
      SingleIsWindow(legs, rules, m, from);
      JoinedGrows(legs, rules, m, ts, Window(from, to, None));
      ts := ts + [Transfer(None, [legs[from]])];
      return;
    }
    var it, lastMatched := from, false;
    while it + 1 < to
      invariant from <= it < to
      invariant IsJoined(legs, rules, m, ts, if lastMatched && it + 1 == to then to else it)
      decreases (to as int) - it
    {
      var rs := rules[legs[it].source];
      var q := FindRule(rs, m, legs, it);
      if q == |rs| {
        lastMatched := false;
        SingleIsWindow(legs, rules, m, it);
        JoinedGrows(legs, rules, m, ts, Window(it, it + 1, None));
        ts := ts + [Transfer(None, [legs[it]])];
        it := it + 1;
      } else {
        lastMatched := true;
        var first := it;
        var matched;
        matched, it := CollectMatched(legs, m, rs[q], first, to);
        GroupIsWindow(legs, rules, m, from, to, first, it, q);
        JoinedGrows(legs, rules, m, ts, Window(first, it + 1, Some(rs[q])));
        ts := ts + [Transfer(Some(rs[q]), matched)];
      }
    }
    if !lastMatched {
      SingleIsWindow(legs, rules, m, to - 1);
      JoinedGrows(legs, rules, m, ts, Window(to - 1, to, None));
      ts := ts + [Transfer(None, [legs[to - 1]])];
    }
  }

  /** `join_transfers`: the complete chain of windows over the legs. */
  method JoinTransfers(legs: seq<FareLeg>, rules: seq<seq<Rule>>, m: Matches)
    returns (transfers: seq<Transfer>)
    requires LegsOk(legs, rules) && RulesOk(rules)
    ensures IsJoined(legs, rules, m, transfers, |legs|)
  {
    hide RulesOk, LegsOk, IsJoined;
    transfers := [];
    NothingIsJoined(legs, rules, m);
    var from := 0;
    while from < |legs|
      invariant from <= |legs| && IsJoined(legs, rules, m, transfers, from)
      decreases |legs| - from
    {
      var to := from + 1;
      while to < |legs| && legs[to].source == legs[to - 1].source
        invariant from < to <= |legs| && forall k :: from <= k < to ==> legs[k].source == legs[from].source
      {
        to := to + 1;
      }
      transfers := JoinRange(legs, rules, m, from, to, transfers);
      from := to;
    }
  }
}
