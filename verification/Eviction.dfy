/** Market-data subscriptions: least-recently-used eviction under a cap, sparing pinned symbols. */
module Eviction {
  import opened Domain

  datatype Access = Access(symbol: string, at: real)

  // ---------------------------------------------------------------
  // What an eviction is
  // ---------------------------------------------------------------

  datatype Policy = Policy(pinned: set<string>, cap: nat, idleAfter: real)

  ghost function Idle(last: map<string, real>, p: Policy, now: real): set<string> {
    set s | s in last && s !in p.pinned && now - last[s] > p.idleAfter
  }

  ghost function PinnedLive(last: map<string, real>, p: Policy): nat {
    |last.Keys * p.pinned|
  }

  /**
   * `gone` is what the policy evicts: no pinned symbol, every idle one, and beyond those only the least
   * recently used and only as many as bring the count down to the cap or to the pinned symbols alone.
   */
  ghost predicate IsEviction(last: map<string, real>, p: Policy, now: real, gone: set<string>) {
    && gone <= last.Keys - p.pinned
    && Idle(last, p, now) <= gone
    && (forall s, t :: s in gone - Idle(last, p, now) && t in last.Keys - p.pinned - gone ==> last[s] <= last[t])
    && |last.Keys - gone| <= Max(p.cap, PinnedLive(last, p))
    && (gone != Idle(last, p, now) ==> |last.Keys - gone| == Max(p.cap, PinnedLive(last, p)))
  }

  ghost predicate DistinctTimes(last: map<string, real>, p: Policy) {
    forall s, t :: s in last.Keys - p.pinned && t in last.Keys - p.pinned && last[s] == last[t] ==> s == t
  }

  lemma SubsetSize<T>(a: set<T>, b: set<T>)
    requires a <= b
    ensures |a| <= |b| && |b - a| == |b| - |a|
    ensures |a| == |b| ==> a == b
  {
    assert b == a + (b - a);
  }

  /**
   * No pinned line is closed; every other one unused for longer than allowed is; a line in use is closed only when
   * more are live than the cap, and then none kept has been idle longer; and no more than needed are closed.
   */
  lemma EvictionRules(last: map<string, real>, p: Policy, now: real, gone: set<string>, s: string)
    requires IsEviction(last, p, now, gone) && s in last
    ensures s in p.pinned ==> s !in gone
    ensures s !in p.pinned && last[s] + p.idleAfter < now ==> s in gone
    ensures s in gone && last[s] + p.idleAfter >= now ==>
              && |last.Keys - gone| >= p.cap
              && forall t :: t in last && t !in p.pinned && t !in gone ==> last[s] <= last[t]
    ensures |last.Keys - gone| <= p.cap || last.Keys - gone <= p.pinned
  {
    if s in gone && last[s] + p.idleAfter >= now {
      assert s !in Idle(last, p, now);
    }
    if |last.Keys - gone| > p.cap {
      SubsetSize(last.Keys * p.pinned, last.Keys - gone);
    }
  }

  lemma SameSizeGone(last: map<string, real>, p: Policy, now: real, a: set<string>, b: set<string>)
    requires IsEviction(last, p, now, a) && IsEviction(last, p, now, b)
    ensures |a| <= |b|
  {
    SubsetSize(a, last.Keys);
    SubsetSize(b, last.Keys);
    SubsetSize(Idle(last, p, now), a);
    SubsetSize(Idle(last, p, now), b);
  }

  /** Unless two symbols were last used at the same instant, the policy leaves no choice. */
  lemma EvictionUnique(last: map<string, real>, p: Policy, now: real, a: set<string>, b: set<string>)
    requires IsEviction(last, p, now, a) && IsEviction(last, p, now, b) && DistinctTimes(last, p)
    ensures a == b
  {
    hide IsEviction, DistinctTimes;
    SameSizeGone(last, p, now, a, b);
    SameSizeGone(last, p, now, b, a);
    if a <= b {
      SubsetSize(a, b);
    } else {
      var s :| s in a && s !in b;
      forall t | t in b ensures t in a {
        NoSwap(last, p, now, a, b, s, t);
      }
      SubsetSize(b, a);
    }
  }

  lemma NoSwap(last: map<string, real>, p: Policy, now: real, a: set<string>, b: set<string>, s: string, t: string)
    requires IsEviction(last, p, now, a) && IsEviction(last, p, now, b) && DistinctTimes(last, p)
    ensures !(s in a - b && t in b - a)
  {
    hide IsEviction;
    if s in a - b && t in b - a {
      OlderFirst(last, p, now, a, b, s, t);
      OlderFirst(last, p, now, b, a, t, s);
      assert false;
    }
  }

  /** What only one eviction takes is no younger than what only the other takes. */
  lemma OlderFirst(last: map<string, real>, p: Policy, now: real, a: set<string>, b: set<string>, s: string, t: string)
    requires IsEviction(last, p, now, a) && IsEviction(last, p, now, b) && s in a - b && t in b - a
    ensures s in last.Keys - p.pinned && t in last.Keys - p.pinned && last[s] <= last[t]
  {
    hide Idle, PinnedLive;
    assert s !in Idle(last, p, now);
  }

  // ---------------------------------------------------------------
  // Sorting by age
  // ---------------------------------------------------------------

  /** Insert before the first that is not older. */
  function Insert(a: Access, s: seq<Access>): seq<Access> {
    if s == [] || a.at <= s[0].at then [a] + s else [s[0]] + Insert(a, s[1..])
  }

  /** A stable sort, oldest access first. */
  function SortByAge(s: seq<Access>): seq<Access> {
    if s == [] then [] else Insert(s[0], SortByAge(s[1..]))
  }

  predicate ByAge(s: seq<Access>) {
    forall i, j :: 0 <= i <= j < |s| ==> s[i].at <= s[j].at
  }

  lemma {:induction false} InsertSorts(a: Access, s: seq<Access>)
    requires ByAge(s)
    ensures ByAge(Insert(a, s)) && multiset(Insert(a, s)) == multiset(s) + multiset{a}
  {
    if s != [] && a.at > s[0].at {
      assert s == [s[0]] + s[1..];
      InsertSorts(a, s[1..]);
      var rest := Insert(a, s[1..]);
      forall j | 0 <= j < |rest| ensures s[0].at <= rest[j].at {
        assert rest[j] in multiset(rest);
      }
    }
  }

  lemma {:induction false} SortSorts(s: seq<Access>)
    ensures ByAge(SortByAge(s)) && multiset(SortByAge(s)) == multiset(s)
  {
    if s != [] {
      SortSorts(s[1..]);
      InsertSorts(s[0], SortByAge(s[1..]));
      assert s == [s[0]] + s[1..];
    }
  }

  function Symbols(s: seq<Access>): set<string> {
    set a | a in s :: a.symbol
  }

  /** The accesses of distinct symbols of the map. */
  ghost predicate Lists(s: seq<Access>, last: map<string, real>) {
    && (forall i :: 0 <= i < |s| ==> s[i].symbol in last && s[i].at == last[s[i].symbol])
    && (forall i, j :: 0 <= i < j < |s| ==> s[i].symbol != s[j].symbol)
  }

  lemma ListsPrefix(s: seq<Access>, last: map<string, real>, n: nat)
    requires Lists(s, last) && n <= |s|
    ensures Lists(s[..n], last)
  {
  }

  lemma {:induction false} ListSize(s: seq<Access>, last: map<string, real>)
    requires Lists(s, last)
    ensures |Symbols(s)| == |s|
  {
    hide Lists, Symbols;
    if s == [] {
      NothingListed(last);
    }
    if s != [] {
      var n := |s| - 1;
      ListsPrefix(s, last, n);
      ListSize(s[..n], last);
      ListsStep(s, last, n);
      assert s[..n + 1] == s;
    }
  }

  lemma SortedLists(s: seq<Access>, last: map<string, real>)
    requires Lists(s, last)
    ensures Lists(SortByAge(s), last) && Symbols(SortByAge(s)) == Symbols(s) && |SortByAge(s)| == |s|
  {
    hide SortByAge, ByAge;
    SortSorts(s);
    var t := SortByAge(s);
    assert |t| == |multiset(t)| && |s| == |multiset(s)|;
    forall a ensures a in t <==> a in s {
      assert a in t <==> a in multiset(t);
      assert a in s <==> a in multiset(s);
    }
    forall i | 0 <= i < |t| ensures t[i].symbol in last && t[i].at == last[t[i].symbol] {
      assert t[i] in t && t[i] in s;
      var k :| 0 <= k < |s| && s[k] == t[i];
    }
    forall i, j | 0 <= i < j < |t| ensures t[i].symbol != t[j].symbol {
      OnceCounts(s, last, t[i]);
      NotTwice(t, i, j);
    }
  }

  lemma NotTwice(t: seq<Access>, i: nat, j: nat)
    requires i < j < |t| && multiset(t)[t[i]] <= 1
    ensures t[i] != t[j]
  {
    assert t == t[..i] + [t[i]] + t[i + 1..j] + [t[j]] + t[j + 1..];
  }

  lemma NothingListed(last: map<string, real>)
    ensures Lists([], last) && Symbols([]) == {}
  {
  }

  lemma ListsAppend(s: seq<Access>, last: map<string, real>, symbol: string)
    requires Lists(s, last) && symbol in last && symbol !in Symbols(s)
    ensures Lists(s + [Access(symbol, last[symbol])], last)
    ensures Symbols(s + [Access(symbol, last[symbol])]) == Symbols(s) + {symbol}
  {
    assert forall i :: 0 <= i < |s| ==> s[i] in s && s[i].symbol in Symbols(s);
    var a := Access(symbol, last[symbol]);
    assert a in s + [a];
    assert forall x :: x in s + [a] <==> x in s || x == a;
  }

  lemma ListsStep(s: seq<Access>, last: map<string, real>, i: nat)
    requires Lists(s, last) && i < |s|
    ensures Symbols(s[..i + 1]) == Symbols(s[..i]) + {s[i].symbol} && s[i].symbol !in Symbols(s[..i])
    ensures s[i].symbol in last && s[i].at == last[s[i].symbol] && s[i].symbol in Symbols(s)
  {
    assert forall x :: x in s[..i + 1] <==> x in s[..i] || x == s[i];
    assert s[i] in s;
  }

  lemma {:induction false} OnceCounts(s: seq<Access>, last: map<string, real>, a: Access)
    requires Lists(s, last)
    ensures multiset(s)[a] <= 1
  {
    if s != [] {
      var n := |s| - 1;
      assert s == s[..n] + [s[n]];
      OnceCounts(s[..n], last, a);
      if a == s[n] {
        assert a !in s[..n];
      }
    }
  }

  // ---------------------------------------------------------------
  // The subscriptions
  // ---------------------------------------------------------------

  class Subscriptions {
    const policy: Policy
    var tickers: map<string, int>
    var lastAccess: map<string, real>

    predicate Valid()
      reads this
    {
      tickers.Keys == lastAccess.Keys
    }

    constructor (policy: Policy)
      ensures Valid() && tickers == map[] && this.policy == policy
    {
      this.policy := policy;
      tickers, lastAccess := map[], map[];
    }

    /** A quote request: reuse the line or open one, and remember when. */
    method Touch(symbol: string, line: int, now: real)
      requires Valid()
      modifies this
      ensures Valid()
      ensures tickers == if symbol in old(tickers) then old(tickers) else old(tickers)[symbol := line]
      ensures lastAccess == old(lastAccess)[symbol := now]
    {
      if symbol !in tickers {
        tickers := tickers[symbol := line];
      }
      lastAccess := lastAccess[symbol := now];
    }

    /** The lines die with the socket. */
    method OnDisconnected()
      modifies this
      ensures Valid() && tickers == map[] && lastAccess == map[]
    {
      tickers, lastAccess := map[], map[];
    }

    method ListEvictable() returns (evictable: seq<Access>)
      requires Valid()
      ensures Lists(evictable, lastAccess) && Symbols(evictable) == lastAccess.Keys - policy.pinned
    {
      hide Lists, Symbols;
      NothingListed(lastAccess);
      evictable := [];
      var left := lastAccess.Keys;
      while left != {}
        invariant left <= lastAccess.Keys && Lists(evictable, lastAccess)
        invariant Symbols(evictable) == lastAccess.Keys - left - policy.pinned
        decreases |left|
      {
        var symbol :| symbol in left;
        left := left - {symbol};
        if symbol !in policy.pinned && symbol in tickers {
          ListsAppend(evictable, lastAccess, symbol);
          evictable := evictable + [Access(symbol, lastAccess[symbol])];
        }
      }
    }

    method FindIdle(evictable: seq<Access>, now: real) returns (idle: set<string>, rest: seq<Access>)
      requires Lists(evictable, lastAccess) && Symbols(evictable) == lastAccess.Keys - policy.pinned
      ensures idle == Idle(lastAccess, policy, now)
      ensures Lists(rest, lastAccess) && Symbols(rest) == lastAccess.Keys - policy.pinned - idle
    {
      hide Lists, Symbols;
      NothingListed(lastAccess);
      idle, rest := {}, [];
      assert evictable[..0] == [];
      for i := 0 to |evictable|
        invariant idle == Idle(lastAccess, policy, now) * Symbols(evictable[..i])
        invariant Lists(rest, lastAccess) && Symbols(rest) == Symbols(evictable[..i]) - idle
      {
        ListsStep(evictable, lastAccess, i);
        if now - evictable[i].at > policy.idleAfter {
          idle := idle + {evictable[i].symbol};
        } else {
          ListsAppend(rest, lastAccess, evictable[i].symbol);
          rest := rest + [evictable[i]];
        }
      }
      assert evictable[..|evictable|] == evictable;
    }

    /** Close the lines that are idle, and the least recently used beyond the cap. */
    method EvictIdle(now: real) returns (gone: set<string>)
      requires Valid()
      modifies this
      ensures Valid() && tickers == old(tickers) - gone && lastAccess == old(lastAccess) - gone
      ensures IsEviction(old(lastAccess), policy, now, gone)
    {
      hide Lists, Symbols, IsEviction, Idle, ByAge, SortByAge;
      var evictable := ListEvictable();
      var rest;
      gone, rest := FindIdle(evictable, now);
      IdleSize(lastAccess, policy, now);
      var live := |tickers| - |gone|;
      if live > policy.cap {
        var survivors := SortByAge(rest);
        SortedLists(rest, lastAccess);
        SortSorts(rest);
        var overflow := Min(live - policy.cap, |survivors|);
        OverflowEvicts(lastAccess, policy, now, survivors, overflow);
        gone := gone + Symbols(survivors[..overflow]);
      } else {
        IdleSuffices(lastAccess, policy, now);
      }
      tickers := tickers - gone;
      lastAccess := lastAccess - gone;
    }
  }

  lemma IdleSize(last: map<string, real>, p: Policy, now: real)
    ensures Idle(last, p, now) <= last.Keys - p.pinned && |Idle(last, p, now)| <= |last|
    ensures |last.Keys - Idle(last, p, now)| == |last| - |Idle(last, p, now)|
  {
    SubsetSize(Idle(last, p, now), last.Keys);
  }

  lemma IdleSuffices(last: map<string, real>, p: Policy, now: real)
    requires |last| - |Idle(last, p, now)| <= p.cap
    ensures IsEviction(last, p, now, Idle(last, p, now))
  {
    IdleSize(last, p, now);
  }

  lemma OldestFirst(last: map<string, real>, survivors: seq<Access>, n: nat, s: string, t: string)
    requires Lists(survivors, last) && ByAge(survivors) && n <= |survivors|
    requires s in Symbols(survivors[..n]) && t in Symbols(survivors) - Symbols(survivors[..n])
    ensures s in last && t in last && last[s] <= last[t]
  {
    var a :| a in survivors[..n] && a.symbol == s;
    var i :| 0 <= i < n && survivors[..n][i] == a;
    var b :| b in survivors && b.symbol == t;
    var j :| 0 <= j < |survivors| && survivors[j] == b;
    assert forall k :: 0 <= k < n ==> survivors[..n][k] == survivors[k] && survivors[k] in survivors[..n];
    assert n <= j;
  }

  lemma PrefixLists(survivors: seq<Access>, last: map<string, real>, n: nat)
    requires Lists(survivors, last) && n <= |survivors|
    ensures Symbols(survivors[..n]) <= Symbols(survivors)
    ensures |Symbols(survivors[..n])| == n && |Symbols(survivors)| == |survivors|
  {
    ListSize(survivors, last);
    ListSize(survivors[..n], last);
  }

  lemma UnionSize<T>(a: set<T>, b: set<T>)
    requires a !! b
    ensures |a + b| == |a| + |b|
  {
  }

  lemma OverflowSizes(last: map<string, real>, p: Policy, idle: set<string>, others: set<string>, oldest: set<string>)
    requires idle <= last.Keys - p.pinned && others == last.Keys - p.pinned - idle && oldest <= others
    requires |last| - |idle| > p.cap && |oldest| == Min(|last| - |idle| - p.cap, |others|)
    ensures |last.Keys - (idle + oldest)| == Max(p.cap, PinnedLive(last, p))
  {
    var pinned := last.Keys * p.pinned;
    SubsetSize(idle + oldest, last.Keys);
    UnionSize(idle, oldest);
    UnionSize(idle, others);
    UnionSize(idle + others, pinned);
    assert idle + others + pinned == last.Keys;
  }

  /** Taking the oldest `overflow` of the rest on top of the idle ones is what the policy asks for. */
  lemma OverflowEvicts(last: map<string, real>, p: Policy, now: real, survivors: seq<Access>, overflow: nat)
    requires Lists(survivors, last) && ByAge(survivors)
    requires Symbols(survivors) == last.Keys - p.pinned - Idle(last, p, now)
    requires |last| - |Idle(last, p, now)| > p.cap
    requires overflow == Min(|last| - |Idle(last, p, now)| - p.cap, |survivors|)
    ensures IsEviction(last, p, now, Idle(last, p, now) + Symbols(survivors[..overflow]))
  {
    hide Lists, Symbols, ByAge, Idle, PinnedLive;
    var idle, oldest := Idle(last, p, now), Symbols(survivors[..overflow]);
    IdleSize(last, p, now);
    PrefixLists(survivors, last, overflow);
    OverflowSizes(last, p, idle, Symbols(survivors), oldest);
    forall s, t | s in oldest && t in last.Keys - p.pinned - (idle + oldest) ensures last[s] <= last[t] {
      OldestFirst(last, survivors, overflow, s, t);
    }
  }
}
