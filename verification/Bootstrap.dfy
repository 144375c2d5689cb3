/**
  Bootstrap registration and ranking: participants are ranked by stake, then registration height, then
  registration order, and everyone below the cap is slashed.
 */
module Bootstrap {
  import opened Basics
  import opened MapSums
  import opened StableSort
  import opened Ledger
  import ES = EconomicSystem

  datatype Entry = Entry(address: string, height: int)

  datatype Config = Config(periodBlocks: int, maxActiveNodes: nat, virtualStake: real)

  function EffectiveStake(l: Ledger, address: string): real {
    Get(l.virtual, address) + Get(l.staked, address)
  }

  function RankKey(l: Ledger): Entry -> Rank {
    (e: Entry) => Rank(EffectiveStake(l, e.address), -e.height)
  }

  predicate UniqueAddresses(registry: seq<Entry>) {
    forall i, j :: 0 <= i < j < |registry| ==> registry[i].address != registry[j].address
  }

  /** The registered entries that have not been slashed, in registration order. */
  function Participants(registry: seq<Entry>, slashed: set<string>): seq<Entry> {
    if registry == [] then []
    else
      var last := |registry| - 1;
      Participants(registry[..last], slashed) + if registry[last].address in slashed then [] else [registry[last]]
  }

  function Active(l: Ledger, cfg: Config, participants: seq<Entry>): seq<Entry> {
    var ranked := Sort(participants, RankKey(l));
    if cfg.maxActiveNodes < |ranked| then ranked[..cfg.maxActiveNodes] else ranked
  }

  function Addresses(entries: seq<Entry>): set<string> { set e | e in entries :: e.address }

  /** The addresses of the entries outside `active`, in order. */
  function Losers(participants: seq<Entry>, active: set<string>): seq<string> {
    if participants == [] then []
    else
      var last := |participants| - 1;
      Losers(participants[..last], active)
      + if participants[last].address in active then [] else [participants[last].address]
  }

  function SetOf(addresses: seq<string>): set<string> { set a | a in addresses }

  lemma SetOfOneMore(addresses: seq<string>, address: string)
    ensures SetOf(addresses + [address]) == SetOf(addresses) + {address}
  {
  }

  function SlashAll(l: Ledger, addresses: seq<string>): Ledger {
    if addresses == [] then l
    else SlashBootstrap(SlashAll(l, addresses[..|addresses| - 1]), addresses[|addresses| - 1])
  }

  /** Everything the ranking knows. */
  datatype State = State(ledger: Ledger, registry: seq<Entry>, slashed: set<string>)

  predicate InPeriod(cfg: Config, block: int) { cfg.periodBlocks > 0 && block < cfg.periodBlocks }

  function ToSlash(cfg: Config, s: State): seq<string> {
    var participants := Participants(s.registry, s.slashed);
    Losers(participants, Addresses(Active(s.ledger, cfg, participants)))
  }

  function RankingSlash(cfg: Config, s: State, block: int): State {
    if !InPeriod(cfg, block) then s
    else
      var losers := ToSlash(cfg, s);
      State(SlashAll(s.ledger, losers), s.registry, s.slashed + SetOf(losers))
  }

  /** A free registration at a height; addresses slashed before they registered are refused. */
  function Joined(cfg: Config, s: State, address: string, height: int): State {
    if InPeriod(cfg, height) && address !in Addresses(s.registry) && address !in s.slashed
    then State(GrantVirtual(s.ledger, address, cfg.virtualStake), s.registry + [Entry(address, height)], s.slashed)
    else s
  }

  predicate IsActive(cfg: Config, s: State, address: string) {
    if cfg.periodBlocks <= 0 then true
    else
      && address !in s.slashed && address in Addresses(s.registry)
      && address in Addresses(Active(s.ledger, cfg, Participants(s.registry, s.slashed)))
  }

  // ----- ranking by counting

  /** How many participants outrank `e`. */
  ghost function Outranking(l: Ledger, participants: seq<Entry>, e: Entry): set<Entry> {
    set b | b in participants && Ahead(participants, RankKey(l), b, e)
  }

  lemma {:induction false} DistinctCount<T>(s: seq<T>)
    requires forall i, j :: 0 <= i < j < |s| ==> s[i] != s[j]
    ensures |set x | x in s| == |s|
  {
    if s != [] {
      var last := |s| - 1;
      DistinctCount(s[..last]);
      assert (set x | x in s) == (set x | x in s[..last]) + {s[last]};
    }
  }

  /** In the ranked list, the position of an entry is the number of entries that outrank it. */
  lemma PositionIsRank(l: Ledger, participants: seq<Entry>, j: nat)
    requires UniqueAddresses(participants) && j < |participants|
    ensures |Sort(participants, RankKey(l))| == |participants|
    ensures |Outranking(l, participants, Sort(participants, RankKey(l))[j])| == j
  {
    var key := RankKey(l);
    var r := Sort(participants, key);
    SortIsStable(participants, key);
    SortSameMembers(participants, key);
    RankedDistinct(l, participants);
    forall b ensures b in Outranking(l, participants, r[j]) <==> b in r[..j] {
      if b in participants {
        assert b in r;
        var i :| 0 <= i < |r| && r[i] == b;
        if i < j {
          assert Ahead(participants, key, r[i], r[j]);
        } else {
          if i > j {
            assert Ahead(participants, key, r[j], r[i]);
          }
          AheadIsStrict(participants, key, r[j], r[i]);
        }
      }
    }
    assert Outranking(l, participants, r[j]) == set b | b in r[..j];
    DistinctCount(r[..j]);
  }

  lemma AheadIsStrict(s: seq<Entry>, key: Entry -> Rank, x: Entry, y: Entry)
    requires UniqueAddresses(s) && (x == y || Ahead(s, key, x, y))
    ensures !Ahead(s, key, y, x)
  {
  }

  lemma RankedDistinct(l: Ledger, participants: seq<Entry>)
    requires UniqueAddresses(participants)
    ensures var r := Sort(participants, RankKey(l)); forall i, j :: 0 <= i < j < |r| ==> r[i] != r[j]
  {
    SortPermutes(participants, RankKey(l));
    DistinctOnce(participants);
    DistinctOnce(Sort(participants, RankKey(l)));
  }

  // ----- survivors

  lemma {:induction false} ParticipantFacts(registry: seq<Entry>, slashed: set<string>)
    ensures forall e :: e in Participants(registry, slashed) <==> e in registry && e.address !in slashed
    ensures UniqueAddresses(registry) ==> UniqueAddresses(Participants(registry, slashed))
  {
    if registry != [] {
      var last := |registry| - 1;
      ParticipantFacts(registry[..last], slashed);
      assert registry == registry[..last] + [registry[last]];
      var p := Participants(registry[..last], slashed);
      if UniqueAddresses(registry) {
        forall i | 0 <= i < |p| ensures p[i].address != registry[last].address {
          assert p[i] in p;
        }
      }
    }
  }

  lemma {:induction false} LoserFacts(participants: seq<Entry>, active: set<string>)
    ensures forall a :: a in Losers(participants, active) <==> a in Addresses(participants) && a !in active
  {
    if participants != [] {
      var last := |participants| - 1;
      LoserFacts(participants[..last], active);
      assert participants == participants[..last] + [participants[last]];
    }
  }

  lemma OtherEntryOtherAddress(registry: seq<Entry>, e: Entry, f: Entry)
    requires UniqueAddresses(registry) && e in registry && f in registry && e != f
    ensures e.address != f.address
  {
  }

  /** Among participants, the slash spares exactly those in the active part of the ranking. */
  lemma SparedIffActive(cfg: Config, s: State, block: int, e: Entry)
    requires UniqueAddresses(s.registry) && InPeriod(cfg, block) && e in Participants(s.registry, s.slashed)
    ensures e.address !in RankingSlash(cfg, s, block).slashed
            <==> e in Active(s.ledger, cfg, Participants(s.registry, s.slashed))
  {
    var p := Participants(s.registry, s.slashed);
    var active := Active(s.ledger, cfg, p);
    ParticipantFacts(s.registry, s.slashed);
    SortSameMembers(p, RankKey(s.ledger));
    LoserFacts(p, Addresses(active));
    assert e.address in Addresses(p);
    if e !in active {
      forall f | f in active ensures f.address != e.address {
        OtherEntryOtherAddress(p, e, f);
      }
    }
  }

  /** The active part is what fewer than `maxActiveNodes` others outrank. */
  lemma ActiveIffFewOutrank(cfg: Config, l: Ledger, participants: seq<Entry>, e: Entry)
    requires UniqueAddresses(participants) && e in participants
    ensures e in Active(l, cfg, participants) <==> |Outranking(l, participants, e)| < cfg.maxActiveNodes
  {
    var r := Sort(participants, RankKey(l));
    SortSameMembers(participants, RankKey(l));
    SortPermutes(participants, RankKey(l));
    var j :| 0 <= j < |r| && r[j] == e;
    PositionIsRank(l, participants, j);
    RankedDistinct(l, participants);
    if j < cfg.maxActiveNodes {
      assert Active(l, cfg, participants)[j] == e;
    }
  }

  /**
    Who survives a ranking slash: exactly the participants outranked by fewer than `maxActiveNodes`
    others, by stake, then registration height, then registration order.
   */
  lemma SurvivorsAreTheTopRanked(cfg: Config, s: State, block: int, e: Entry)
    requires UniqueAddresses(s.registry) && InPeriod(cfg, block)
    requires e in Participants(s.registry, s.slashed)
    ensures e.address !in RankingSlash(cfg, s, block).slashed
            <==> |Outranking(s.ledger, Participants(s.registry, s.slashed), e)| < cfg.maxActiveNodes
  {
    ParticipantFacts(s.registry, s.slashed);
    SparedIffActive(cfg, s, block, e);
    ActiveIffFewOutrank(cfg, s.ledger, Participants(s.registry, s.slashed), e);
  }

  /** After a slash exactly the survivors are participants, they fit under the cap, and all of them are active. */
  lemma SurvivorsAreActive(cfg: Config, s: State, block: int, e: Entry)
    requires UniqueAddresses(s.registry) && InPeriod(cfg, block)
    requires e in Participants(s.registry, RankingSlash(cfg, s, block).slashed)
    ensures IsActive(cfg, RankingSlash(cfg, s, block), e.address)
  {
    var t := RankingSlash(cfg, s, block);
    SurvivorsFit(cfg, s, block);
    ParticipantFacts(s.registry, t.slashed);
    SortSameMembers(Participants(t.registry, t.slashed), RankKey(t.ledger));
    SortPermutes(Participants(t.registry, t.slashed), RankKey(t.ledger));
    assert e in Active(t.ledger, cfg, Participants(t.registry, t.slashed));
    assert e.address in Addresses(s.registry);
  }

  /** Whoever is still a participant after the slash was in the active part of the ranking. */
  lemma SurvivorWasActive(cfg: Config, s: State, block: int, e: Entry)
    requires UniqueAddresses(s.registry) && InPeriod(cfg, block)
    requires e in Participants(s.registry, RankingSlash(cfg, s, block).slashed)
    ensures e in Active(s.ledger, cfg, Participants(s.registry, s.slashed))
  {
    var p := Participants(s.registry, s.slashed);
    var active := Active(s.ledger, cfg, p);
    ParticipantFacts(s.registry, s.slashed);
    ParticipantFacts(s.registry, RankingSlash(cfg, s, block).slashed);
    LoserFacts(p, Addresses(active));
    SortSameMembers(p, RankKey(s.ledger));
    assert e in p && e.address in Addresses(p) && e.address in Addresses(active);
    var f :| f in active && f.address == e.address;
    if e != f {
      OtherEntryOtherAddress(p, e, f);
    }
  }

  lemma SurvivorsFit(cfg: Config, s: State, block: int)
    requires UniqueAddresses(s.registry) && InPeriod(cfg, block)
    ensures |Participants(s.registry, RankingSlash(cfg, s, block).slashed)| <= cfg.maxActiveNodes
  {
    var q := Participants(s.registry, RankingSlash(cfg, s, block).slashed);
    var active := Active(s.ledger, cfg, Participants(s.registry, s.slashed));
    ParticipantFacts(s.registry, RankingSlash(cfg, s, block).slashed);
    forall e | e in q ensures e in active {
      SurvivorWasActive(cfg, s, block, e);
    }
    NoMoreThan(q, active);
  }

  /** Distinct elements drawn from a list cannot outnumber it. */
  lemma NoMoreThan<T>(few: seq<T>, many: seq<T>)
    requires forall i, j :: 0 <= i < j < |few| ==> few[i] != few[j]
    requires forall x :: x in few ==> x in many
    ensures |few| <= |many|
  {
    DistinctCount(few);
    SetAtMost(many);
    var a, b := (set x | x in few), (set x | x in many);
    assert b == a + (b - a);
  }

  lemma {:induction false} SetAtMost<T>(s: seq<T>)
    ensures |set x | x in s| <= |s|
  {
    if s != [] {
      var last := |s| - 1;
      SetAtMost(s[..last]);
      assert (set x | x in s) == (set x | x in s[..last]) + {s[last]};
    }
  }

  /** A second ranking slash in the same period removes nobody and changes nothing. */
  lemma SecondSlashIsIdle(cfg: Config, s: State, block: int, later: int)
    requires UniqueAddresses(s.registry) && InPeriod(cfg, block)
    ensures RankingSlash(cfg, RankingSlash(cfg, s, block), later) == RankingSlash(cfg, s, block)
  {
    var t := RankingSlash(cfg, s, block);
    SurvivorsFit(cfg, s, block);
    IdleWithinCap(cfg, t, later);
  }

  lemma IdleWithinCap(cfg: Config, t: State, block: int)
    requires |Participants(t.registry, t.slashed)| <= cfg.maxActiveNodes
    ensures RankingSlash(cfg, t, block) == t
  {
    var q := Participants(t.registry, t.slashed);
    SortPermutes(q, RankKey(t.ledger));
    SortSameMembers(q, RankKey(t.ledger));
    NoLosers(q, Addresses(Active(t.ledger, cfg, q)));
    assert ToSlash(cfg, t) == [] && SetOf([]) == {};
  }

  lemma {:induction false} NoLosers(participants: seq<Entry>, active: set<string>)
    requires forall e :: e in participants ==> e.address in active
    ensures Losers(participants, active) == []
  {
    if participants != [] {
      var last := |participants| - 1;
      assert participants[last] in participants && forall e :: e in participants[..last] ==> e in participants;
      NoLosers(participants[..last], active);
    }
  }

  /** Slashing a list removes their stake and virtual stake, and no one else's funds. */
  lemma {:induction false} SlashAllEffect(l: Ledger, addresses: seq<string>)
    ensures var t := SlashAll(l, addresses);
            && t.liquid == l.liquid && t.unbonding == l.unbonding && t.escrow == l.escrow
            && t.staked == l.staked - SetOf(addresses) && t.virtual == l.virtual - SetOf(addresses)
  {
    if addresses != [] {
      var last := |addresses| - 1;
      SlashAllEffect(l, addresses[..last]);
      SetOfOneMore(addresses[..last], addresses[last]);
      assert addresses == addresses[..last] + [addresses[last]];
    }
  }

  // ----- the stateful registry

  class BootstrapRegistry {
    const cfg: Config
    const economy: ES.EconomicSystem
    var registry: seq<Entry>
    var slashed: set<string>

    ghost function View(): State
      reads this, economy
    {
      State(economy.State(), registry, slashed)
    }

    ghost predicate Valid()
      reads this
    {
      UniqueAddresses(registry)
    }

    constructor (cfg: Config, economy: ES.EconomicSystem)
      ensures Valid() && this.cfg == cfg && this.economy == economy && registry == [] && slashed == {}
    {
      this.cfg, this.economy, registry, slashed := cfg, economy, [], {};
    }

    /** Free registration; an address that was slashed before it registered is refused. */
    method Register(address: string, chainLength: int) returns (ok: bool)
      requires Valid()
      modifies this, economy
      ensures Valid() && View() == Joined(cfg, old(View()), address, chainLength)
      ensures ok <==> cfg.periodBlocks <= 0 || (InPeriod(cfg, chainLength) && address in Addresses(registry))
    {
      if cfg.periodBlocks <= 0 {
        return true;
      }
      if chainLength >= cfg.periodBlocks {
        return false;
      }
      if address in Addresses(registry) {
        return true;
      }
      if address in slashed {
        return false;
      }
      assert forall i :: 0 <= i < |registry| ==> registry[i] in registry;
      registry := registry + [Entry(address, chainLength)];
      assert registry[|registry| - 1] in registry;
      economy.GrantBootstrapVirtualStake(address, cfg.virtualStake);
      return true;
    }

    method CurrentParticipants() returns (participants: seq<Entry>)
      ensures participants == Participants(registry, slashed)
    {
      participants := [];
      for i := 0 to |registry|
        invariant participants == Participants(registry[..i], slashed)
      {
        assert registry[..i + 1][..i] == registry[..i];
        if registry[i].address !in slashed {
          participants := participants + [registry[i]];
        }
      }
      assert registry[..|registry|] == registry;
    }

    method BootstrapRankingSlash(block: int)
      requires Valid()
      modifies this, economy
      ensures Valid() && View() == RankingSlash(cfg, old(View()), block)
    {
      if cfg.periodBlocks <= 0 || block >= cfg.periodBlocks {
        return;
      }
      var participants := CurrentParticipants();
      var ranked := Sort(participants, RankKey(economy.State()));
      var active := Addresses(if cfg.maxActiveNodes < |ranked| then ranked[..cfg.maxActiveNodes] else ranked);
      SlashOutside(participants, active);
    }

    method SlashOutside(participants: seq<Entry>, active: set<string>)
      modifies `slashed, economy
      ensures economy.State() == SlashAll(old(economy.State()), Losers(participants, active))
      ensures slashed == old(slashed) + SetOf(Losers(participants, active))
    {
      for i := 0 to |participants|
        invariant economy.State() == SlashAll(old(economy.State()), Losers(participants[..i], active))
        invariant slashed == old(slashed) + SetOf(Losers(participants[..i], active))
      {
        var address := participants[i].address;
        assert participants[..i + 1][..i] == participants[..i];
        if address !in active {
          ghost var losers := Losers(participants[..i], active);
          assert (losers + [address])[..|losers|] == losers;
          SetOfOneMore(losers, address);
          economy.SlashBootstrapParticipant(address);
          slashed := slashed + {address};
        } else {
          assert Losers(participants[..i + 1], active) == Losers(participants[..i], active);
        }
      }
      assert participants[..|participants|] == participants;
    }

    method IsActiveBootstrapMiner(address: string) returns (active: bool)
      ensures active == IsActive(cfg, View(), address)
    {
      if cfg.periodBlocks <= 0 {
        return true;
      }
      if address in slashed || address !in Addresses(registry) {
        return false;
      }
      var participants := CurrentParticipants();
      var ranked := Sort(participants, RankKey(economy.State()));
      return address in Addresses(if cfg.maxActiveNodes < |ranked| then ranked[..cfg.maxActiveNodes] else ranked);
    }
  }
}
