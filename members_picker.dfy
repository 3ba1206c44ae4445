/**
 * The random member picker: collects the members named by up to three target
 * options, removes the bot itself, bots (unless asked for) and everything
 * named by up to three exclude options, refuses when too few remain, and
 * otherwise picks a prefix of a Fisher–Yates shuffle.
 */
module MembersPicker {
  import opened Wrappers
  import opened Strings
  import Sorting

  const OPTION_COUNT := 3
  const TARGET_PREFIX := "target"
  const EXCLUDE_PREFIX := "exclude"

  datatype GuildMember = GuildMember(id: string, isBot: bool)

  /** A mentionable option: one member, or a role with its members in iteration order. */
  datatype Mentionable = MemberOption(member: GuildMember) | RoleOption(roleMembers: seq<GuildMember>)

  /** The members a mention stands for. */
  function MembersOf(t: Mentionable): seq<GuildMember> {
    match t
    case MemberOption(m) => [m]
    case RoleOption(ms) => ms
  }

  // ---------------------------------------------------------------------
  // getMentionableOptions
  // ---------------------------------------------------------------------

  /** The option name `${prefix}${i}`. */
  function OptionName(prefix: string, i: nat): string {
    prefix + NatToString(i)
  }

  /** The lookups of `prefix1` .. `prefix{n}`, `None` for an option left empty. */
  function Lookups(options: map<string, Mentionable>, prefix: string, n: nat): (r: seq<Option<Mentionable>>)
    ensures |r| == n
    ensures forall k :: 0 <= k < n ==> r[k] == Lookup(options, OptionName(prefix, k + 1))
  {
    if n == 0 then [] else Lookups(options, prefix, n - 1) + [Lookup(options, OptionName(prefix, n))]
  }

  /** What `getMentionableOptions` returns: the given options among the first three, in order. */
  function Mentions(options: map<string, Mentionable>, prefix: string): seq<Mentionable> {
    Somes(Lookups(options, prefix, OPTION_COUNT))
  }

  /**
   * `getMentionableOptions`: pushes the options `prefix1` .. `prefix3` that
   * are present, in index order; every result is one of them and every
   * present one is in the result.
   */
  method GetMentionableOptions(options: map<string, Mentionable>, prefix: string)
    returns (results: seq<Mentionable>)
    ensures results == Mentions(options, prefix)
    ensures forall x :: x in results <==>
      exists i :: 1 <= i <= OPTION_COUNT && OptionName(prefix, i) in options && options[OptionName(prefix, i)] == x
  {
    results := [];
    var i := 1;
    while i <= OPTION_COUNT
      invariant 1 <= i <= OPTION_COUNT + 1
      invariant results == Somes(Lookups(options, prefix, i - 1))
    {
      var option := Lookup(options, OptionName(prefix, i));
      SomesSnoc(Lookups(options, prefix, i - 1), option);
      if option.Some? {
        results := results + [option.value];
      }
      i := i + 1;
    }
    forall x
      ensures x in results <==>
        exists i :: 1 <= i <= OPTION_COUNT && OptionName(prefix, i) in options && options[OptionName(prefix, i)] == x
    {
      var lookups := Lookups(options, prefix, OPTION_COUNT);
      SomesMembership(lookups, x);
      if x in results {
        var k :| 0 <= k < |lookups| && lookups[k] == Some(x);
        assert OptionName(prefix, k + 1) in options;
      } else {
        forall i | 1 <= i <= OPTION_COUNT && OptionName(prefix, i) in options
          ensures options[OptionName(prefix, i)] != x
        {
          assert lookups[i - 1] == Some(options[OptionName(prefix, i)]);
        }
      }
    }
  }

  // ---------------------------------------------------------------------
  // The eligible map: a JavaScript Map from id to member, in insertion order
  // ---------------------------------------------------------------------

  /** The keys of the map. */
  function Keys(s: seq<GuildMember>): set<string> {
    if s == [] then {} else {s[0].id} + Keys(s[1..])
  }

  lemma {:induction false} KeysMembership(s: seq<GuildMember>, id: string)
    ensures id in Keys(s) <==> exists k :: 0 <= k < |s| && s[k].id == id
  {
    if s != [] {
      KeysMembership(s[1..], id);
      if id in Keys(s[1..]) {
        var k :| 0 <= k < |s[1..]| && s[1..][k].id == id;
        assert s[k + 1].id == id;
      }
    }
  }

  lemma {:induction false} KeysAppend(a: seq<GuildMember>, b: seq<GuildMember>)
    ensures Keys(a + b) == Keys(a) + Keys(b)
  {
    if a == [] {
      assert a + b == b;
    } else {
      assert (a + b)[1..] == a[1..] + b;
      KeysAppend(a[1..], b);
    }
  }

  /** Each id is held at most once, as in a map keyed by id. */
  predicate DistinctIds(s: seq<GuildMember>) {
    forall i, j :: 0 <= i < j < |s| ==> s[i].id != s[j].id
  }

  lemma DistinctCons(x: GuildMember, t: seq<GuildMember>)
    ensures DistinctIds([x] + t) <==> x.id !in Keys(t) && DistinctIds(t)
  {
    var s := [x] + t;
    KeysMembership(t, x.id);
    if DistinctIds(s) {
      forall i, j | 0 <= i < j < |t|
        ensures t[i].id != t[j].id
      {
        assert s[i + 1] == t[i] && s[j + 1] == t[j];
      }
      forall k | 0 <= k < |t|
        ensures t[k].id != x.id
      {
        assert s[0] == x && s[k + 1] == t[k];
      }
    }
    if x.id !in Keys(t) && DistinctIds(t) {
      forall i, j | 0 <= i < j < |s|
        ensures s[i].id != s[j].id
      {
        assert s[j] == t[j - 1];
        if i > 0 {
          assert s[i] == t[i - 1];
        }
      }
    }
  }

  /** `map.set(m.id, m)`: overwrites the entry for the id where it stands, or appends one. */
  function Put(s: seq<GuildMember>, m: GuildMember): seq<GuildMember>
  {
    if s == [] then [m]
    else if s[0].id == m.id then [m] + s[1..]
    else [s[0]] + Put(s[1..], m)
  }

  /** After `set`, the map holds the id, with `m` as its value; nothing else changes. */
  lemma {:induction false} PutFacts(s: seq<GuildMember>, m: GuildMember)
    ensures Keys(Put(s, m)) == Keys(s) + {m.id}
    ensures m in Put(s, m)
    ensures forall x :: x in Put(s, m) ==> x == m || x in s
  {
    if s != [] {
      var r := Put(s, m);
      assert Keys(s) == {s[0].id} + Keys(s[1..]);
      if s[0].id == m.id {
        assert r[0] == m && r[1..] == s[1..];
      } else {
        PutFacts(s[1..], m);
        assert r[0] == s[0] && r[1..] == Put(s[1..], m);
      }
    }
  }

  /** `set` keeps each id held once. */
  lemma {:induction false} PutKeepsDistinctIds(s: seq<GuildMember>, m: GuildMember)
    requires DistinctIds(s)
    ensures DistinctIds(Put(s, m))
  {
    if s != [] {
      assert s == [s[0]] + s[1..];
      DistinctCons(s[0], s[1..]);
      if s[0].id == m.id {
        DistinctCons(m, s[1..]);
      } else {
        PutFacts(s[1..], m);
        PutKeepsDistinctIds(s[1..], m);
        DistinctCons(s[0], Put(s[1..], m));
      }
    }
  }

  /** The order-keeping filter: the entries whose member satisfies `p`. `map.delete` and
      every deleting loop of the handler are instances of it. */
  function Keep(s: seq<GuildMember>, p: GuildMember -> bool): seq<GuildMember>
  {
    if s == [] then [] else (if p(s[0]) then [s[0]] else []) + Keep(s[1..], p)
  }

  lemma {:induction false} KeepFacts(s: seq<GuildMember>, p: GuildMember -> bool)
    ensures forall x :: x in Keep(s, p) <==> x in s && p(x)
    ensures Keys(Keep(s, p)) <= Keys(s)
    ensures DistinctIds(s) ==> DistinctIds(Keep(s, p))
  {
    if s != [] {
      KeepFacts(s[1..], p);
      assert s == [s[0]] + s[1..];
      DistinctCons(s[0], s[1..]);
      if p(s[0]) {
        var r := Keep(s, p);
        assert r == [s[0]] + Keep(s[1..], p);
        assert r[1..] == Keep(s[1..], p);
        DistinctCons(s[0], Keep(s[1..], p));
      } else {
        assert Keep(s, p) == Keep(s[1..], p);
      }
    }
  }

  lemma {:induction false} KeepAppend(a: seq<GuildMember>, b: seq<GuildMember>, p: GuildMember -> bool)
    ensures Keep(a + b, p) == Keep(a, p) + Keep(b, p)
  {
    if a == [] {
      assert a + b == b;
    } else {
      var head := if p(a[0]) then [a[0]] else [];
      assert (a + b)[0] == a[0];
      assert (a + b)[1..] == a[1..] + b;
      KeepAppend(a[1..], b, p);
      assert Keep(a + b, p) == head + (Keep(a[1..], p) + Keep(b, p));
      assert Keep(a, p) == head + Keep(a[1..], p);
    }
  }

  /** Filtering with a predicate every entry meets changes nothing. */
  lemma {:induction false} KeepAll(s: seq<GuildMember>, p: GuildMember -> bool)
    requires forall x :: x in s ==> p(x)
    ensures Keep(s, p) == s
  {
    if s != [] {
      assert s[0] in s;
      KeepAll(s[1..], p);
    }
  }

  /** Filtering twice is filtering once by both predicates. */
  lemma {:induction false} KeepKeep(s: seq<GuildMember>, p: GuildMember -> bool, q: GuildMember -> bool,
                                    pq: GuildMember -> bool)
    requires forall x :: pq(x) == (p(x) && q(x))
    ensures Keep(Keep(s, p), q) == Keep(s, pq)
  {
    if s != [] {
      KeepKeep(s[1..], p, q, pq);
      if p(s[0]) {
        var r := Keep(s, p);
        assert r == [s[0]] + Keep(s[1..], p);
        assert r[1..] == Keep(s[1..], p);
        if q(s[0]) {
          assert Keep(r, q) == [s[0]] + Keep(Keep(s[1..], p), q);
        } else {
          assert Keep(r, q) == Keep(Keep(s[1..], p), q);
        }
      } else {
        assert Keep(s, p) == Keep(s[1..], p);
      }
    }
  }

  /** The entries `map.delete(id)` keeps. */
  function OtherThan(id: string): GuildMember -> bool {
    (x: GuildMember) => x.id != id
  }

  predicate IsHuman(x: GuildMember) {
    !x.isBot
  }

  /** The entries that survive deleting every id of `ids`. */
  function OutsideOf(ids: set<string>): GuildMember -> bool {
    (x: GuildMember) => x.id !in ids
  }

  /** `map.delete(id)`. */
  function Delete(s: seq<GuildMember>, id: string): seq<GuildMember> {
    Keep(s, OtherThan(id))
  }

  /** What remains after the bot-deleting loop. */
  function WithoutBots(s: seq<GuildMember>): seq<GuildMember> {
    Keep(s, IsHuman)
  }

  /** What remains after deleting every id of `ids`. */
  function WithoutIds(s: seq<GuildMember>, ids: set<string>): seq<GuildMember> {
    Keep(s, OutsideOf(ids))
  }

  /** `map.set` of every member of `ms`, in order. */
  function PutAll(s: seq<GuildMember>, ms: seq<GuildMember>): seq<GuildMember>
    decreases |ms|
  {
    if ms == [] then s else PutAll(Put(s, ms[0]), ms[1..])
  }

  lemma {:induction false} PutAllFacts(s: seq<GuildMember>, ms: seq<GuildMember>)
    ensures Keys(PutAll(s, ms)) == Keys(s) + Keys(ms)
    ensures forall x :: x in PutAll(s, ms) ==> x in s || x in ms
    ensures DistinctIds(s) ==> DistinctIds(PutAll(s, ms))
    decreases |ms|
  {
    if ms != [] {
      PutFacts(s, ms[0]);
      if DistinctIds(s) {
        PutKeepsDistinctIds(s, ms[0]);
      }
      PutAllFacts(Put(s, ms[0]), ms[1..]);
      assert ms == [ms[0]] + ms[1..];
    }
  }

  /** The target loop, continuing from the map `s`. */
  function GatherInto(s: seq<GuildMember>, targets: seq<Mentionable>): seq<GuildMember>
    decreases |targets|
  {
    if targets == [] then s else GatherInto(PutAll(s, MembersOf(targets[0])), targets[1..])
  }

  /** Every id any of the mentions stands for. */
  function MentionedIds(ts: seq<Mentionable>): set<string> {
    if ts == [] then {} else Keys(MembersOf(ts[0])) + MentionedIds(ts[1..])
  }

  /** `m` is one of the members the mentions stand for. */
  ghost predicate IsMentioned(ts: seq<Mentionable>, m: GuildMember) {
    exists k :: 0 <= k < |ts| && m in MembersOf(ts[k])
  }

  /**
   * The map after the target loop holds every targeted id exactly once, and
   * every entry is a member that a target stands for.
   */
  lemma {:induction false} GatherIntoFacts(s: seq<GuildMember>, targets: seq<Mentionable>)
    requires DistinctIds(s)
    ensures DistinctIds(GatherInto(s, targets))
    ensures Keys(GatherInto(s, targets)) == Keys(s) + MentionedIds(targets)
    ensures forall x :: x in GatherInto(s, targets) ==> x in s || IsMentioned(targets, x)
    decreases |targets|
  {
    if targets != [] {
      var next := PutAll(s, MembersOf(targets[0]));
      PutAllFacts(s, MembersOf(targets[0]));
      GatherIntoFacts(next, targets[1..]);
      forall x | x in GatherInto(s, targets)
        ensures x in s || IsMentioned(targets, x)
      {
        if x in next {
          if x !in s {
            assert x in MembersOf(targets[0]);
          }
        } else {
          var k :| 0 <= k < |targets[1..]| && x in MembersOf(targets[1..][k]);
          assert x in MembersOf(targets[k + 1]);
        }
      }
    }
  }

  /** The candidates left after every deletion. */
  function Eligible(targets: seq<Mentionable>, excludes: seq<Mentionable>, selfId: Option<string>,
                    includeBots: bool): seq<GuildMember>
  {
    var gathered := GatherInto([], targets);
    var notSelf := if selfId.Some? then Delete(gathered, selfId.value) else gathered;
    var humans := if includeBots then notSelf else WithoutBots(notSelf);
    WithoutIds(humans, MentionedIds(excludes))
  }

  /** The filters of `Eligible`, one after the other, keep exactly the entries that pass them all. */
  lemma EligibleMembership(targets: seq<Mentionable>, excludes: seq<Mentionable>, selfId: Option<string>,
                           includeBots: bool)
    ensures var gathered := GatherInto([], targets);
      && DistinctIds(Eligible(targets, excludes, selfId, includeBots))
      && forall m :: m in Eligible(targets, excludes, selfId, includeBots) <==>
           && m in gathered
           && selfId != Some(m.id)
           && (includeBots || !m.isBot)
           && m.id !in MentionedIds(excludes)
  {
    var gathered := GatherInto([], targets);
    GatherIntoFacts([], targets);
    var notSelf := if selfId.Some? then Delete(gathered, selfId.value) else gathered;
    if selfId.Some? {
      KeepFacts(gathered, OtherThan(selfId.value));
    }
    var humans := if includeBots then notSelf else WithoutBots(notSelf);
    if !includeBots {
      KeepFacts(notSelf, IsHuman);
    }
    KeepFacts(humans, OutsideOf(MentionedIds(excludes)));
  }

  /**
   * Every candidate is held once and comes from a target; the bot itself, bots
   * (unless included) and every excluded id are absent, even when targeted.
   */
  lemma EligibleSound(targets: seq<Mentionable>, excludes: seq<Mentionable>, selfId: Option<string>,
                      includeBots: bool)
    ensures var e := Eligible(targets, excludes, selfId, includeBots);
      && DistinctIds(e)
      && (forall m :: m in e ==> IsMentioned(targets, m))
      && (forall m :: m in e ==> selfId != Some(m.id))
      && (!includeBots ==> forall m :: m in e ==> !m.isBot)
      && (forall m :: m in e ==> m.id !in MentionedIds(excludes))
  {
    GatherIntoFacts([], targets);
    EligibleMembership(targets, excludes, selfId, includeBots);
  }

  /** Every member a target stands for has its id in the gathered map. */
  lemma TargetsAreGathered(targets: seq<Mentionable>, k: nat, m: GuildMember)
    requires k < |targets| && m in MembersOf(targets[k])
    ensures m.id in Keys(GatherInto([], targets))
  {
    GatherIntoFacts([], targets);
    MentionedIdsCover(targets, k, m);
  }

  lemma {:induction false} MentionedIdsCover(ts: seq<Mentionable>, k: nat, m: GuildMember)
    requires k < |ts| && m in MembersOf(ts[k])
    ensures m.id in MentionedIds(ts)
  {
    if k > 0 {
      MentionedIdsCover(ts[1..], k - 1, m);
    } else {
      var i :| 0 <= i < |MembersOf(ts[0])| && MembersOf(ts[0])[i] == m;
      KeysMembership(MembersOf(ts[0]), m.id);
    }
  }

  // ---------------------------------------------------------------------
  // The loops of handleMembersCommand
  // ---------------------------------------------------------------------

  /** The target loop: `eligibleMap.set` for each target member, or for each member of a target role. */
  method GatherTargets(targets: seq<Mentionable>) returns (entries: seq<GuildMember>)
    ensures entries == GatherInto([], targets)
  {
    entries := [];
    var i := 0;
    while i < |targets|
      invariant 0 <= i <= |targets|
      invariant GatherInto(entries, targets[i..]) == GatherInto([], targets)
    {
      assert targets[i..][1..] == targets[i + 1..];
      var ms := MembersOf(targets[i]);
      ghost var start := entries;
      var j := 0;
      while j < |ms|
        invariant 0 <= j <= |ms|
        invariant PutAll(entries, ms[j..]) == PutAll(start, ms)
      {
        assert ms[j..][1..] == ms[j + 1..];
        entries := Put(entries, ms[j]);
        j := j + 1;
      }
      i := i + 1;
    }
  }

  /** The bot loop: deletes each entry whose member is a bot while iterating the map. */
  method DeleteBots(entries: seq<GuildMember>) returns (kept: seq<GuildMember>)
    requires DistinctIds(entries)
    ensures kept == WithoutBots(entries)
  {
    kept := entries;
    var k := 0;
    while k < |entries|
      invariant 0 <= k <= |entries|
      invariant kept == WithoutBots(entries[..k]) + entries[k..]
    {
      var member := entries[k];
      BotLoopStep(entries, k);
      if member.isBot {
        kept := Delete(kept, member.id);
      }
      k := k + 1;
    }
    assert entries[..|entries|] == entries;
  }

  /** Deleting an id the map does not hold changes nothing. */
  lemma {:induction false} DeleteAbsent(s: seq<GuildMember>, id: string)
    requires id !in Keys(s)
    ensures Delete(s, id) == s
  {
    if s != [] {
      DeleteAbsent(s[1..], id);
    }
  }

  /** In a map keyed by id, the id at position `k` occurs nowhere else. */
  lemma DistinctElsewhere(s: seq<GuildMember>, k: nat)
    requires DistinctIds(s) && k < |s|
    ensures s[k].id !in Keys(s[..k]) && s[k].id !in Keys(s[k + 1..])
  {
    KeysMembership(s[..k], s[k].id);
    KeysMembership(s[k + 1..], s[k].id);
    forall p | 0 <= p < k
      ensures s[..k][p].id != s[k].id
    {
      assert s[..k][p] == s[p];
    }
    forall q | k < q < |s|
      ensures s[q].id != s[k].id
    {
    }
  }

  /** One turn of the bot loop at position `k`. */
  lemma BotLoopStep(entries: seq<GuildMember>, k: nat)
    requires DistinctIds(entries) && k < |entries|
    ensures var kept := WithoutBots(entries[..k]) + entries[k..];
      (if entries[k].isBot then Delete(kept, entries[k].id) else kept)
        == WithoutBots(entries[..k + 1]) + entries[k + 1..]
  {
    var member := entries[k];
    var done := WithoutBots(entries[..k]);
    assert entries[..k + 1] == entries[..k] + [member];
    KeepAppend(entries[..k], [member], IsHuman);
    assert [member][1..] == [];
    if member.isBot {
      assert WithoutBots([member]) == [];
      assert done + [] == done;
      DeleteBotStep(entries, k);
    } else {
      assert WithoutBots([member]) == [member];
      assert entries[k..] == [member] + entries[k + 1..];
      assert done + [member] + entries[k + 1..] == done + entries[k..];
    }
  }

  /** Deleting the bot at position `k` leaves the filtered prefix and the rest after `k`. */
  lemma DeleteBotStep(entries: seq<GuildMember>, k: nat)
    requires DistinctIds(entries) && k < |entries|
    ensures Delete(WithoutBots(entries[..k]) + entries[k..], entries[k].id)
         == WithoutBots(entries[..k]) + entries[k + 1..]
  {
    var id := entries[k].id;
    var done, rest := WithoutBots(entries[..k]), entries[k + 1..];
    DistinctElsewhere(entries, k);
    KeepFacts(entries[..k], IsHuman);
    DeleteAbsent(done, id);
    DeleteAbsent(rest, id);
    assert entries[k..] == [entries[k]] + rest;
    assert Delete(entries[k..], id) == Delete(rest, id);
    KeepAppend(done, entries[k..], OtherThan(id));
  }

  /** The exclusion loop: `exclusionSet.add` of each excluded member's id. */
  method CollectExclusions(excludes: seq<Mentionable>) returns (ids: set<string>)
    ensures ids == MentionedIds(excludes)
  {
    ids := {};
    var i := 0;
    while i < |excludes|
      invariant 0 <= i <= |excludes|
      invariant ids + MentionedIds(excludes[i..]) == MentionedIds(excludes)
    {
      assert excludes[i..][1..] == excludes[i + 1..];
      var ms := MembersOf(excludes[i]);
      ghost var start := ids;
      var j := 0;
      while j < |ms|
        invariant 0 <= j <= |ms|
        invariant ids + Keys(ms[j..]) == start + Keys(ms)
      {
        assert ms[j..][1..] == ms[j + 1..];
        ids := ids + {ms[j].id};
        j := j + 1;
      }
      assert ms[|ms|..] == [];
      i := i + 1;
    }
    assert excludes[|excludes|..] == [];
    assert MentionedIds(excludes[|excludes|..]) == {};
  }

  /** The difference loop: `eligibleMap.delete` of each id in the exclusion set. */
  method DeleteExcluded(entries: seq<GuildMember>, ids: set<string>) returns (kept: seq<GuildMember>)
    ensures kept == WithoutIds(entries, ids)
  {
    kept := entries;
    var rest := ids;
    KeepAll(entries, OutsideOf(ids - rest));
    while rest != {}
      invariant rest <= ids
      invariant kept == WithoutIds(entries, ids - rest)
      decreases rest
    {
      var id :| id in rest;
      var done := ids - rest;
      KeepKeep(entries, OutsideOf(done), OtherThan(id), OutsideOf(done + {id}));
      assert done + {id} == ids - (rest - {id});
      kept := Delete(kept, id);
      rest := rest - {id};
    }
    assert ids - rest == ids;
  }

  // ---------------------------------------------------------------------
  // Fisher–Yates
  // ---------------------------------------------------------------------

  /** `[arr[i], arr[j]] = [arr[j], arr[i]]`. */
  function SwapAt<T>(s: seq<T>, i: nat, j: nat): (r: seq<T>)
    requires i < |s| && j < |s|
    ensures |r| == |s|
  {
    s[i := s[j]][j := s[i]]
  }

  /** `draw(i)` stands for `Math.floor(Math.random() * (i + 1))`, an index no larger than `i`. */
  ghost predicate IsDraw(draw: nat -> nat) {
    forall i: nat :: draw(i) <= i
  }

  /** The shuffle loop from index `i` down to 1. */
  function ShuffleDown<T>(s: seq<T>, draw: nat -> nat, i: nat): (r: seq<T>)
    requires i < |s| && IsDraw(draw)
    ensures |r| == |s|
    decreases i
  {
    if i == 0 then s else ShuffleDown(SwapAt(s, i, draw(i)), draw, i - 1)
  }

  /** The whole shuffle, starting at the last index. */
  function Shuffled<T>(s: seq<T>, draw: nat -> nat): (r: seq<T>)
    requires IsDraw(draw)
    ensures |r| == |s|
  {
    if |s| == 0 then s else ShuffleDown(s, draw, |s| - 1)
  }

  /** The shuffle only swaps, so it returns a rearrangement of its input. */
  lemma {:induction false} ShuffleDownIsPermutation<T>(s: seq<T>, draw: nat -> nat, i: nat)
    requires i < |s| && IsDraw(draw)
    ensures multiset(ShuffleDown(s, draw, i)) == multiset(s)
    decreases i
  {
    if i > 0 {
      Sorting.SwapKeepsMultiset(s, i, draw(i));
      ShuffleDownIsPermutation(SwapAt(s, i, draw(i)), draw, i - 1);
    }
  }

  /** A swap keeps each id held once. */
  lemma SwapKeepsDistinctIds(s: seq<GuildMember>, i: nat, j: nat)
    requires i < |s| && j < |s| && DistinctIds(s)
    ensures DistinctIds(SwapAt(s, i, j))
  {
    var r := SwapAt(s, i, j);
    forall p, q | 0 <= p < q < |r|
      ensures r[p].id != r[q].id
    {
      var p' := if p == i then j else if p == j then i else p;
      var q' := if q == i then j else if q == j then i else q;
      assert r[p] == s[p'] && r[q] == s[q'] && p' != q';
    }
  }

  /** The shuffled candidates are the same members, each id still held once. */
  lemma {:induction false} ShuffleDownKeepsDistinctIds(s: seq<GuildMember>, draw: nat -> nat, i: nat)
    requires i < |s| && IsDraw(draw) && DistinctIds(s)
    ensures DistinctIds(ShuffleDown(s, draw, i))
    decreases i
  {
    if i > 0 {
      SwapKeepsDistinctIds(s, i, draw(i));
      ShuffleDownKeepsDistinctIds(SwapAt(s, i, draw(i)), draw, i - 1);
    }
  }

  /** The Fisher–Yates loop, in place, with `draw(i)` as the index chosen at step `i`. */
  method Shuffle<T>(a: array<T>, draw: nat -> nat)
    requires IsDraw(draw)
    modifies a
    ensures a[..] == Shuffled(old(a[..]), draw)
  {
    var i := a.Length - 1;
    while i > 0
      invariant -1 <= i < a.Length
      invariant i == -1 ==> a.Length == 0
      invariant 0 <= i ==> ShuffleDown(a[..], draw, i) == Shuffled(old(a[..]), draw)
    {
      var j := draw(i);
      ghost var s := a[..];
      a[i], a[j] := a[j], a[i];
      assert a[..] == SwapAt(s, i, j);
      i := i - 1;
    }
  }

  // ---------------------------------------------------------------------
  // handleMembersCommand
  // ---------------------------------------------------------------------

  /** `getInteger(...) || 1`: an absent or zero count means one. */
  function EffectiveCount(count: Option<int>): (n: int)
    ensures n != 0
    ensures count.None? || count.value == 0 ==> n == 1
    ensures count.Some? && count.value != 0 ==> n == count.value
  {
    if count.None? || count.value == 0 then 1 else count.value
  }

  /** The end index `Array.prototype.slice(0, end)` uses on an array of length `len`. */
  function SliceEnd(len: nat, end: int): (k: nat)
    ensures k <= len
    ensures 0 <= end <= len ==> k == end
    ensures end < 0 ==> k == if len + end < 0 then 0 else len + end
  {
    if end < 0 then (if len + end < 0 then 0 else len + end)
    else if end > len then len
    else end
  }

  datatype PickReply = NotInGuild | TooFewCandidates | Picked(selected: seq<GuildMember>)

  const NOT_IN_GUILD_TEXT := "このコマンドは DM 等では使用できません。サーバー内で使用してください。"
  const TOO_FEW_TEXT := "指定された条件で抽選対象となるユーザーが、抽選しようとしている人数よりも少ないため抽選できませんでした。"
  const RESULT_PREFIX := "抽選結果: "

  /** `GuildMember.toString()`: a user mention. */
  function MentionText(m: GuildMember): string {
    "<@" + m.id + ">"
  }

  function MentionTexts(ms: seq<GuildMember>): (r: seq<string>)
    ensures |r| == |ms|
    ensures forall k :: 0 <= k < |ms| ==> r[k] == MentionText(ms[k])
  {
    if ms == [] then [] else [MentionText(ms[0])] + MentionTexts(ms[1..])
  }

  /** The reply content sent for each outcome. */
  function ReplyText(reply: PickReply): (r: string)
    ensures reply == NotInGuild ==> r == NOT_IN_GUILD_TEXT
    ensures reply == TooFewCandidates ==> r == TOO_FEW_TEXT
    ensures reply.Picked? ==> |RESULT_PREFIX| <= |r| && r[..|RESULT_PREFIX|] == RESULT_PREFIX
    ensures reply.Picked? ==> r == RESULT_PREFIX + Join(MentionTexts(reply.selected), " ")
    ensures reply.Picked? && |reply.selected| == 1 ==> r == RESULT_PREFIX + MentionText(reply.selected[0])
    ensures reply.Picked? && reply.selected == [] ==> r == RESULT_PREFIX
  {
    match reply
    case NotInGuild => NOT_IN_GUILD_TEXT
    case TooFewCandidates => TOO_FEW_TEXT
    case Picked(selected) =>
      var r := RESULT_PREFIX + Join(MentionTexts(selected), " ");
      assert r[..|RESULT_PREFIX|] == RESULT_PREFIX;
      r
  }

  /** The candidates for the given options, as the handler computes them. */
  function EligibleFor(options: map<string, Mentionable>, selfId: Option<string>, includeBots: Option<bool>)
    : seq<GuildMember>
  {
    Eligible(Mentions(options, TARGET_PREFIX), Mentions(options, EXCLUDE_PREFIX), selfId, includeBots == Some(true))
  }

  /** The eligible map built by the handler's loops. */
  method ComputeEligible(targets: seq<Mentionable>, excludes: seq<Mentionable>, selfId: Option<string>,
                         includeBots: bool)
    returns (eligible: seq<GuildMember>)
    ensures eligible == Eligible(targets, excludes, selfId, includeBots)
  {
    GatherIntoFacts([], targets);
    eligible := GatherTargets(targets);
    if selfId.Some? {
      KeepFacts(eligible, OtherThan(selfId.value));
      eligible := Delete(eligible, selfId.value);
    }
    if !includeBots {
      eligible := DeleteBots(eligible);
    }
    var exclusionSet := CollectExclusions(excludes);
    eligible := DeleteExcluded(eligible, exclusionSet);
  }

  /** The members picked from the candidates `e`: a prefix of their shuffle. */
  function Selection(e: seq<GuildMember>, draw: nat -> nat, count: int): seq<GuildMember>
    requires IsDraw(draw)
  {
    Shuffled(e, draw)[..SliceEnd(|e|, count)]
  }

  /**
   * The picked members are distinct candidates, and when there are at least
   * `count` candidates (a positive number), exactly `count` of them.
   */
  lemma SelectionFacts(e: seq<GuildMember>, draw: nat -> nat, count: int)
    requires IsDraw(draw) && DistinctIds(e)
    ensures DistinctIds(Selection(e, draw, count))
    ensures forall m :: m in Selection(e, draw, count) ==> m in e
    ensures 0 < count <= |e| ==> |Selection(e, draw, count)| == count
    ensures count < 0 ==> |Selection(e, draw, count)| == if |e| + count < 0 then 0 else |e| + count
  {
    var shuffled := Shuffled(e, draw);
    if |e| > 0 {
      ShuffleDownKeepsDistinctIds(e, draw, |e| - 1);
      ShuffleDownIsPermutation(e, draw, |e| - 1);
    }
    forall m | m in Selection(e, draw, count)
      ensures m in e
    {
      assert m in shuffled;
      assert m in multiset(shuffled);
    }
  }

  /**
   * `handleMembersCommand`. `options` holds the mentionable options that were
   * given, `count` and `includeBots` what the integer and boolean options
   * returned, `selfId` the bot's own id when `client.user` is set.
   */
  method HandleMembersCommand(options: map<string, Mentionable>, count: Option<int>, includeBots: Option<bool>,
                              inGuild: bool, selfId: Option<string>, draw: nat -> nat)
    returns (reply: PickReply)
    requires IsDraw(draw)
    ensures !inGuild <==> reply == NotInGuild
    ensures inGuild ==>
      (reply == TooFewCandidates <==> |EligibleFor(options, selfId, includeBots)| < EffectiveCount(count))
    ensures reply.Picked? ==>
      reply.selected == Selection(EligibleFor(options, selfId, includeBots), draw, EffectiveCount(count))
  {
    var targets := GetMentionableOptions(options, TARGET_PREFIX);
    var n := EffectiveCount(count);
    var excludes := GetMentionableOptions(options, EXCLUDE_PREFIX);
    var shouldIncludeBots := includeBots == Some(true);
    if !inGuild {
      return NotInGuild;
    }
    var eligible := ComputeEligible(targets, excludes, selfId, shouldIncludeBots);
    if |eligible| < n {
      return TooFewCandidates;
    }
    var arr := new GuildMember[|eligible|](k requires 0 <= k < |eligible| => eligible[k]);
    assert arr[..] == eligible;
    Shuffle(arr, draw);
    var selected := arr[..SliceEnd(arr.Length, n)];
    reply := Picked(selected);
  }

  /**
   * What a successful pick promises: distinct members, each a candidate that
   * a target stands for, none of them the bot itself, a bot (unless
   * included) or excluded, and exactly as many as the count asks for.
   */
  lemma PickedMembersAreEligible(options: map<string, Mentionable>, count: Option<int>,
                                 includeBots: Option<bool>, selfId: Option<string>, draw: nat -> nat)
    requires IsDraw(draw)
    requires EffectiveCount(count) <= |EligibleFor(options, selfId, includeBots)|
    ensures var picked := Selection(EligibleFor(options, selfId, includeBots), draw, EffectiveCount(count));
      && DistinctIds(picked)
      && (forall m :: m in picked ==> IsMentioned(Mentions(options, TARGET_PREFIX), m))
      && (forall m :: m in picked ==> selfId != Some(m.id))
      && (includeBots != Some(true) ==> forall m :: m in picked ==> !m.isBot)
      && (forall m :: m in picked ==> m.id !in MentionedIds(Mentions(options, EXCLUDE_PREFIX)))
      && (EffectiveCount(count) > 0 ==> |picked| == EffectiveCount(count))
  {
    var targets, excludes := Mentions(options, TARGET_PREFIX), Mentions(options, EXCLUDE_PREFIX);
    EligibleSound(targets, excludes, selfId, includeBots == Some(true));
    SelectionFacts(EligibleFor(options, selfId, includeBots), draw, EffectiveCount(count));
  }

  /** With target member "1", excluded member "2" and count 1, member "1" is picked. */
  method PickExample() returns (reply: PickReply)
    ensures reply == Picked([GuildMember("1", false)])
    ensures ReplyText(reply) == "抽選結果: <@1>"
  {
    var one, two := GuildMember("1", false), GuildMember("2", false);
    var options := map["target1" := MemberOption(one), "exclude1" := MemberOption(two)];
    ExampleMentions(options, one, two);
    var draw := (i: nat) => 0;
    var e := EligibleFor(options, Some("bot"), None);
    assert GatherInto([], [MemberOption(one)]) == [one];
    assert Delete([one], "bot") == [one];
    assert WithoutBots([one]) == [one];
    assert MentionedIds([MemberOption(two)]) == {"2"};
    assert WithoutIds([one], {"2"}) == [one];
    assert e == [one];
    assert Selection(e, draw, 1) == [one];
    reply := HandleMembersCommand(options, Some(1), None, true, Some("bot"), draw);
  }

  lemma ExampleMentions(options: map<string, Mentionable>, one: GuildMember, two: GuildMember)
    requires options == map["target1" := MemberOption(one), "exclude1" := MemberOption(two)]
    ensures Mentions(options, TARGET_PREFIX) == [MemberOption(one)]
    ensures Mentions(options, EXCLUDE_PREFIX) == [MemberOption(two)]
  {
    assert NatToString(1) == "1" && NatToString(2) == "2" && NatToString(3) == "3";
    assert OptionName(TARGET_PREFIX, 1) == "target1" && OptionName(EXCLUDE_PREFIX, 1) == "exclude1";
    assert OptionName(TARGET_PREFIX, 2) == "target2" && OptionName(EXCLUDE_PREFIX, 2) == "exclude2";
    assert OptionName(TARGET_PREFIX, 3) == "target3" && OptionName(EXCLUDE_PREFIX, 3) == "exclude3";
    var t := Lookups(options, TARGET_PREFIX, OPTION_COUNT);
    var x := Lookups(options, EXCLUDE_PREFIX, OPTION_COUNT);
    assert t == [Some(MemberOption(one)), None, None];
    assert x == [Some(MemberOption(two)), None, None];
    var nones: seq<Option<Mentionable>> := [None, None];
    assert Somes(nones[1..]) == [];
    assert Somes(nones) == [];
    assert t[1..] == nones && x[1..] == nones;
  }
}
