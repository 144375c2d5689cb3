/**
  Who survives the ranking, in ledger and registry terms: whoever fewer than the cap beat, by virtual and real
  stake, then by an earlier registration height, then by an earlier place in the registry.
 */
module BootstrapOrder {
  import opened MapSums
  import opened StableSort
  import opened Ledger
  import opened Bootstrap

  /** Place `j` of the registry beats place `i`. */
  predicate Beats(l: Ledger, registry: seq<Entry>, j: nat, i: nat)
    requires j < |registry| && i < |registry|
  {
    var mine := Get(l.virtual, registry[i].address) + Get(l.staked, registry[i].address);
    var theirs := Get(l.virtual, registry[j].address) + Get(l.staked, registry[j].address);
    || theirs > mine
    || (theirs == mine && registry[j].height < registry[i].height)
    || (theirs == mine && registry[j].height == registry[i].height && j < i)
  }

  /** The places that beat place `i` and have not been slashed. */
  ghost function Better(s: State, i: nat): set<nat>
    requires i < |s.registry|
  {
    set j: nat | j < |s.registry| && s.registry[j].address !in s.slashed && Beats(s.ledger, s.registry, j, i)
  }

  lemma LastParticipant(registry: seq<Entry>, slashed: set<string>, front: seq<Entry>, more: seq<Entry>)
    requires registry != [] && front == Participants(registry[..|registry| - 1], slashed)
    requires more == if registry[|registry| - 1].address in slashed then [] else [registry[|registry| - 1]]
    ensures Participants(registry, slashed) == front + more
  {
  }

  lemma TakesPart(registry: seq<Entry>, slashed: set<string>, n: nat, k: nat)
    requires UniqueAddresses(registry) && n <= |registry| && k < |registry| && registry[k].address !in slashed
    ensures registry[k] in Participants(registry[..n], slashed) <==> k < n
  {
    ParticipantFacts(registry[..n], slashed);
    if k < n {
      assert registry[..n][k] == registry[k];
    }
  }

  /** Participants stand in registry order. */
  lemma {:induction false} OrderIsKept(registry: seq<Entry>, slashed: set<string>, j: nat, i: nat)
    requires UniqueAddresses(registry) && j < |registry| && i < |registry| && j != i
    requires registry[j].address !in slashed && registry[i].address !in slashed
    ensures Precedes(Participants(registry, slashed), registry[j], registry[i]) <==> j < i
  {
    var last := |registry| - 1;
    var front := Participants(registry[..last], slashed);
    var more := if registry[last].address in slashed then [] else [registry[last]];
    LastParticipant(registry, slashed, front, more);
    TakesPart(registry, slashed, last, j);
    TakesPart(registry, slashed, last, i);
    if j < last && i < last {
      OrderIsKept(registry[..last], slashed, j, i);
      AppendKeepsOrder(front, more, registry[j], registry[i]);
    } else {
      LastIsAfter(front, registry[last], if i == last then registry[j] else registry[i]);
    }
  }

  lemma AppendKeepsOrder(front: seq<Entry>, more: seq<Entry>, x: Entry, y: Entry)
    requires x in front && y in front && x !in more && y !in more
    ensures Precedes(front + more, x, y) <==> Precedes(front, x, y)
  {
    if Precedes(front, x, y) {
      var a, b :| 0 <= a < b < |front| && front[a] == x && front[b] == y;
      assert (front + more)[a] == x && (front + more)[b] == y;
    }
  }

  lemma LastIsAfter(front: seq<Entry>, last: Entry, x: Entry)
    requires x in front && last !in front
    ensures Precedes(front + [last], x, last) && !Precedes(front + [last], last, x)
  {
    var a :| 0 <= a < |front| && front[a] == x;
    assert (front + [last])[a] == x && (front + [last])[|front|] == last;
  }

  /** Outranking is beating. */
  lemma OutranksIff(s: State, j: nat, i: nat)
    requires UniqueAddresses(s.registry) && j < |s.registry| && i < |s.registry|
    requires s.registry[j].address !in s.slashed && s.registry[i].address !in s.slashed
    ensures Ahead(Participants(s.registry, s.slashed), RankKey(s.ledger), s.registry[j], s.registry[i])
            <==> Beats(s.ledger, s.registry, j, i)
  {
    var p := Participants(s.registry, s.slashed);
    ParticipantFacts(s.registry, s.slashed);
    if j == i {
      AheadIsStrict(p, RankKey(s.ledger), s.registry[i], s.registry[i]);
    } else {
      OrderIsKept(s.registry, s.slashed, j, i);
    }
  }

  lemma {:induction false} ImageCount(registry: seq<Entry>, places: set<nat>)
    requires UniqueAddresses(registry) && forall j :: j in places ==> j < |registry|
    ensures |set j | j in places :: registry[j]| == |places|
  {
    if places != {} {
      var k :| k in places;
      ImageCount(registry, places - {k});
      var all, rest := set j | j in places :: registry[j], set j | j in places - {k} :: registry[j];
      forall j | j in places - {k} ensures registry[j] != registry[k] {
        assert registry[j].address != registry[k].address;
      }
      assert all == rest + {registry[k]} && registry[k] !in rest;
    }
  }

  lemma SameCount(s: State, i: nat)
    requires UniqueAddresses(s.registry) && i < |s.registry| && s.registry[i].address !in s.slashed
    ensures |Outranking(s.ledger, Participants(s.registry, s.slashed), s.registry[i])| == |Better(s, i)|
  {
    var p := Participants(s.registry, s.slashed);
    ParticipantFacts(s.registry, s.slashed);
    var image := set j | j in Better(s, i) :: s.registry[j];
    forall b ensures b in Outranking(s.ledger, p, s.registry[i]) <==> b in image {
      if b in p {
        var j :| 0 <= j < |s.registry| && s.registry[j] == b;
        OutranksIff(s, j, i);
      }
      if b in image {
        var j :| j in Better(s, i) && s.registry[j] == b;
        OutranksIff(s, j, i);
      }
    }
    assert Outranking(s.ledger, p, s.registry[i]) == image;
    ImageCount(s.registry, Better(s, i));
  }

  /** A registered address that was not slashed survives the ranking exactly when fewer than the cap beat it. */
  lemma SurvivesIff(cfg: Config, s: State, block: int, i: nat)
    requires UniqueAddresses(s.registry) && InPeriod(cfg, block)
    requires i < |s.registry| && s.registry[i].address !in s.slashed
    ensures s.registry[i].address !in RankingSlash(cfg, s, block).slashed <==> |Better(s, i)| < cfg.maxActiveNodes
  {
    ParticipantFacts(s.registry, s.slashed);
    SurvivorsAreTheTopRanked(cfg, s, block, s.registry[i]);
    SameCount(s, i);
  }

  lemma ActiveIff(cfg: Config, s: State, i: nat)
    requires UniqueAddresses(s.registry) && i < |s.registry| && cfg.periodBlocks > 0
    ensures IsActive(cfg, s, s.registry[i].address)
            <==> s.registry[i].address !in s.slashed && |Better(s, i)| < cfg.maxActiveNodes
  {
    var e, p := s.registry[i], Participants(s.registry, s.slashed);
    ParticipantFacts(s.registry, s.slashed);
    if e.address !in s.slashed {
      ActiveIffFewOutrank(cfg, s.ledger, p, e);
      SameCount(s, i);
      SortSameMembers(p, RankKey(s.ledger));
      forall f | f in Active(s.ledger, cfg, p) && f.address == e.address ensures f == e {
        if f != e {
          OtherEntryOtherAddress(p, e, f);
        }
      }
    }
  }

  /** An address may mine exactly without a bootstrap, or registered, not slashed and beaten by fewer than the cap. */
  lemma IsActiveIff(cfg: Config, s: State, address: string)
    requires UniqueAddresses(s.registry)
    ensures IsActive(cfg, s, address)
            <==> cfg.periodBlocks <= 0
                 || exists i: nat :: i < |s.registry| && s.registry[i].address == address && address !in s.slashed
                                     && |Better(s, i)| < cfg.maxActiveNodes
  {
    if cfg.periodBlocks > 0 {
      forall i: nat | i < |s.registry| && s.registry[i].address == address
        ensures IsActive(cfg, s, address) <==> address !in s.slashed && |Better(s, i)| < cfg.maxActiveNodes
      {
        ActiveIff(cfg, s, i);
      }
      if address in Addresses(s.registry) {
        var e :| e in s.registry && e.address == address;
        var i :| 0 <= i < |s.registry| && s.registry[i] == e;
      }
    }
  }

  // ----- registration

  /** Registering is free but once: within the period, for an address neither registered nor slashed. */
  lemma JoinedIff(cfg: Config, s: State, address: string, height: int)
    ensures var t := Joined(cfg, s, address, height);
            && (t.registry == s.registry + [Entry(address, height)]
                <==> && cfg.periodBlocks > 0 && height < cfg.periodBlocks && address !in s.slashed
                     && forall i :: 0 <= i < |s.registry| ==> s.registry[i].address != address)
            && (t.registry == s.registry + [Entry(address, height)] ==>
                  && Get(t.ledger.virtual, address) == Get(s.ledger.virtual, address) + cfg.virtualStake
                  && t.ledger == s.ledger.(virtual := t.ledger.virtual) && t.slashed == s.slashed)
            && (t.registry != s.registry + [Entry(address, height)] ==> t == s)
  {
    assert s.registry != s.registry + [Entry(address, height)];
    assert address in Addresses(s.registry) <==> exists i :: 0 <= i < |s.registry| && s.registry[i].address == address;
  }
}
