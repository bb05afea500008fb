/** Player ids that survive a rebuild: a player keeps the id that its best sole-owned sources had before. */
module PlayerIdentity {
  import opened Options
  import opened Identity

  /** `sourceIds` maps a source to the player's id there; an empty id is none. */
  datatype Player = Player(identity: string, id: string, sourceIds: map<string, string>, others: string)

  /** A stored player: its source ids, or None for text that is no JSON. */
  datatype Existing = Existing(id: string, sourceIds: Option<map<string, string>>)

  /** Someone with source ids: a stored player under its id, or a rebuilt one under its identity. */
  datatype Holder = Holder(name: string, sourceIds: map<string, string>)

  const LAST_TIER := 10

  function Tier(source: string): (t: nat)
    ensures t <= LAST_TIER
  {
    match source
    case "sackmann_sqlite" => 0
    case "tml" => 1
    case "api_tennis" => 2
    case "tennis_explorer" => 3
    case _ => LAST_TIER
  }

  function Alias(source: string, id: string): string {
    source + ":" + id
  }

  predicate Has(h: Holder, alias: string) {
    exists source :: source in h.sourceIds && h.sourceIds[source] != "" && Alias(source, h.sourceIds[source]) == alias
  }

  /** The names of all who have the alias. */
  ghost function Owners(holders: seq<Holder>, alias: string): set<string> {
    set h | h in holders && Has(h, alias) :: h.name
  }

  function Stored(existing: seq<Existing>): seq<Holder> {
    seq(|existing|, i requires 0 <= i < |existing| =>
      Holder(existing[i].id, if existing[i].sourceIds.Some? then existing[i].sourceIds.value else map[]))
  }

  function Current(players: seq<Player>): seq<Holder> {
    seq(|players|, i requires 0 <= i < |players| => Holder(players[i].identity, players[i].sourceIds))
  }

  /** Of the rebuilt players only p has this source id. */
  ghost predicate Sole(current: seq<Holder>, p: Player, source: string) {
    && source in p.sourceIds && p.sourceIds[source] != ""
    && Owners(current, Alias(source, p.sourceIds[source])) == {p.identity}
  }

  /** The source speaks for a prior id: p is its sole owner now and `id` had it before. */
  ghost predicate Speaks(stored: seq<Holder>, current: seq<Holder>, p: Player, source: string, id: string) {
    Sole(current, p, source) && id in Owners(stored, Alias(source, p.sourceIds[source]))
  }

  ghost function AtTier(stored: seq<Holder>, current: seq<Holder>, p: Player, t: nat): set<string> {
    set source, id | source in p.sourceIds && Tier(source) == t
      && id in Owners(stored, Alias(source, p.sourceIds[source])) && Speaks(stored, current, p, source, id) :: id
  }

  /** The ids of the first tier, from t on, that has any. */
  ghost function BestFrom(stored: seq<Holder>, current: seq<Holder>, p: Player, t: nat): set<string>
    decreases LAST_TIER + 1 - t
  {
    if t > LAST_TIER then {}
    else if AtTier(stored, current, p, t) != {} then AtTier(stored, current, p, t)
    else BestFrom(stored, current, p, t + 1)
  }

  ghost function Claim(stored: seq<Holder>, current: seq<Holder>, p: Player): Option<string> {
    Only(BestFrom(stored, current, p, 0))
  }

  ghost function Claims(existing: seq<Existing>, players: seq<Player>): seq<Option<string>> {
    seq(|players|, i requires 0 <= i < |players| => Claim(Stored(existing), Current(players), players[i]))
  }

  ghost function Kept(existing: seq<Existing>, players: seq<Player>, i: nat): Player
    requires i < |players|
  {
    var claims := Claims(existing, players);
    if First(claims, i) then players[i].(id := claims[i].value) else players[i]
  }

  ghost function Preserved(existing: seq<Existing>, players: seq<Player>): seq<Player> {
    seq(|players|, i requires 0 <= i < |players| => Kept(existing, players, i))
  }

  // ---- what a claim means -------------------------------------------------------------

  lemma {:induction false} BestFromIsFirst(stored: seq<Holder>, current: seq<Holder>, p: Player, t: nat, u: nat)
    requires t <= u <= LAST_TIER && AtTier(stored, current, p, u) != {}
    requires forall v :: t <= v < u ==> AtTier(stored, current, p, v) == {}
    ensures BestFrom(stored, current, p, t) == AtTier(stored, current, p, u)
    decreases u - t
  {
    if t < u {
      BestFromIsFirst(stored, current, p, t + 1, u);
    }
  }

  lemma {:induction false} BestFromIsSome(stored: seq<Holder>, current: seq<Holder>, p: Player, t: nat) returns (u: nat)
    requires BestFrom(stored, current, p, t) != {}
    ensures t <= u <= LAST_TIER && BestFrom(stored, current, p, t) == AtTier(stored, current, p, u)
    ensures forall v :: t <= v < u ==> AtTier(stored, current, p, v) == {}
    decreases LAST_TIER + 1 - t
  {
    u := t;
    if AtTier(stored, current, p, t) == {} {
      u := BestFromIsSome(stored, current, p, t + 1);
    }
  }

  /** Every other word for a prior id comes from a worse tier or names the same id. */
  ghost predicate Outranks(stored: seq<Holder>, current: seq<Holder>, p: Player, source: string, id: string) {
    forall other, otherId :: Speaks(stored, current, p, other, otherId) ==>
      Tier(other) > Tier(source) || (Tier(other) == Tier(source) && otherId == id)
  }

  /**
   A prior id is claimed exactly when a sole-owned source of the best tier speaks for it and none of
   that tier for another.
   */
  lemma ClaimMeaning(stored: seq<Holder>, current: seq<Holder>, p: Player, id: string)
    ensures Claim(stored, current, p) == Some(id)
            <==> exists source :: Speaks(stored, current, p, source, id) && Outranks(stored, current, p, source, id)
  {
    if Claim(stored, current, p) == Some(id) {
      ClaimSpoken(stored, current, p, id);
    }
    if source :| Speaks(stored, current, p, source, id) && Outranks(stored, current, p, source, id) {
      SpokenClaim(stored, current, p, source, id);
    }
  }

  lemma ClaimSpoken(stored: seq<Holder>, current: seq<Holder>, p: Player, id: string)
    requires Claim(stored, current, p) == Some(id)
    ensures exists source :: Speaks(stored, current, p, source, id) && Outranks(stored, current, p, source, id)
  {
    var u := BestFromIsSome(stored, current, p, 0);
    assert id in AtTier(stored, current, p, u);
    var source :| source in p.sourceIds && Tier(source) == u && Speaks(stored, current, p, source, id);
    forall other, otherId | Speaks(stored, current, p, other, otherId)
      ensures Tier(other) > u || (Tier(other) == u && otherId == id)
    {
      assert otherId in AtTier(stored, current, p, Tier(other));
    }
  }

  lemma SpokenClaim(stored: seq<Holder>, current: seq<Holder>, p: Player, source: string, id: string)
    requires Speaks(stored, current, p, source, id) && Outranks(stored, current, p, source, id)
    ensures Claim(stored, current, p) == Some(id)
  {
    var u := Tier(source);
    assert id in AtTier(stored, current, p, u);
    BestFromIsFirst(stored, current, p, 0, u);
    assert AtTier(stored, current, p, u) == {id};
  }

  // ---- what it means for the sources --------------------------------------------------

  /** The sources whose word counts most, best first; any other comes after them. */
  const RANKED := ["sackmann_sqlite", "tml", "api_tennis", "tennis_explorer"]

  /** Among the ids there is this one at this source, or one that is written the same with its source. */
  predicate Carries(ids: map<string, string>, source: string, id: string) {
    exists s :: s in ids && ids[s] != "" && s + ":" + ids[s] == source + ":" + id
  }

  lemma OwnersMeaning(holders: seq<Holder>, source: string, id: string, name: string)
    ensures name in Owners(holders, Alias(source, id))
      <==> exists i :: 0 <= i < |holders| && holders[i].name == name && Carries(holders[i].sourceIds, source, id)
    ensures Owners(holders, Alias(source, id)) == {name}
      <==> && (exists i :: 0 <= i < |holders| && holders[i].name == name && Carries(holders[i].sourceIds, source, id))
           && (forall i :: 0 <= i < |holders| && Carries(holders[i].sourceIds, source, id) ==> holders[i].name == name)
  {
    var owners := Owners(holders, Alias(source, id));
    forall h ensures Has(h, Alias(source, id)) <==> Carries(h.sourceIds, source, id) {
      assert Alias(source, id) == source + ":" + id;
    }
    forall i | 0 <= i < |holders| && Carries(holders[i].sourceIds, source, id) ensures holders[i].name in owners {
      assert holders[i] in holders && Has(holders[i], Alias(source, id));
    }
    forall x | x in owners
      ensures exists i :: 0 <= i < |holders| && holders[i].name == x && Carries(holders[i].sourceIds, source, id)
    {
      var h :| h in holders && Has(h, Alias(source, id)) && h.name == x;
      var i :| 0 <= i < |holders| && holders[i] == h;
    }
    if name in owners && forall x :: x in owners ==> x == name {
      assert owners == {name};
    }
  }

  /** On the players and the stored rows: p's id at the source is nobody else's now, and the row `id` had it before. */
  lemma SpeaksMeaning(existing: seq<Existing>, players: seq<Player>, p: Player, source: string, id: string)
    ensures Speaks(Stored(existing), Current(players), p, source, id)
      <==> && source in p.sourceIds && p.sourceIds[source] != ""
           && (exists k :: 0 <= k < |players| && players[k].identity == p.identity
                 && Carries(players[k].sourceIds, source, p.sourceIds[source]))
           && (forall k :: 0 <= k < |players| && Carries(players[k].sourceIds, source, p.sourceIds[source]) ==>
                 players[k].identity == p.identity)
           && (exists k :: 0 <= k < |existing| && existing[k].id == id && existing[k].sourceIds.Some?
                 && Carries(existing[k].sourceIds.value, source, p.sourceIds[source]))
  {
    if source in p.sourceIds {
      var stored, current := Stored(existing), Current(players);
      OwnersMeaning(current, source, p.sourceIds[source], p.identity);
      OwnersMeaning(stored, source, p.sourceIds[source], id);
      StoredMeaning(existing, source, p.sourceIds[source], id);
      assert forall k :: 0 <= k < |players| ==> current[k] == Holder(players[k].identity, players[k].sourceIds);
      assert forall k :: 0 <= k < |players| ==>
        (Carries(current[k].sourceIds, source, p.sourceIds[source])
         <==> Carries(players[k].sourceIds, source, p.sourceIds[source]));
    }
  }

  lemma StoredMeaning(existing: seq<Existing>, source: string, sourceId: string, id: string)
    ensures var stored := Stored(existing);
      (exists k :: 0 <= k < |stored| && stored[k].name == id && Carries(stored[k].sourceIds, source, sourceId))
      <==> exists k :: 0 <= k < |existing| && existing[k].id == id && existing[k].sourceIds.Some?
             && Carries(existing[k].sourceIds.value, source, sourceId)
  {
    var stored := Stored(existing);
    forall k | 0 <= k < |existing|
      ensures Carries(stored[k].sourceIds, source, sourceId)
              <==> existing[k].sourceIds.Some? && Carries(existing[k].sourceIds.value, source, sourceId)
      ensures stored[k].name == existing[k].id
    {
    }
  }

  /** `source` is a ranked one, and `other` is not among those up to it. */
  predicate Below(other: string, source: string) {
    exists i :: 0 <= i < 4 && RANKED[i] == source && other !in RANKED[..i + 1]
  }

  lemma TierMeaning(other: string, source: string)
    ensures Tier(other) > Tier(source) <==> Below(other, source)
  {
    assert RANKED[..1] == ["sackmann_sqlite"] && RANKED[..2] == ["sackmann_sqlite", "tml"];
    assert RANKED[..3] == ["sackmann_sqlite", "tml", "api_tennis"] && RANKED[..4] == RANKED;
    if source in RANKED {
      var i :| 0 <= i < 4 && RANKED[i] == source;
      assert Tier(source) == i;
    }
  }

  /** A prior id is claimed exactly when a source speaks for it that all words for another id are ranked below. */
  lemma ClaimBySources(stored: seq<Holder>, current: seq<Holder>, p: Player, id: string)
    ensures Claim(stored, current, p) == Some(id) <==> exists source :: Prevails(stored, current, p, source, id)
  {
    forall other, source ensures Tier(other) > Tier(source) <==> Below(other, source) {
      TierMeaning(other, source);
    }
    if Claim(stored, current, p) == Some(id) {
      ClaimSpoken(stored, current, p, id);
      var source :| Speaks(stored, current, p, source, id) && Outranks(stored, current, p, source, id);
      assert Prevails(stored, current, p, source, id);
    }
    if source :| Prevails(stored, current, p, source, id) {
      PrevailingClaim(stored, current, p, source, id);
    }
  }

  ghost predicate Prevails(stored: seq<Holder>, current: seq<Holder>, p: Player, source: string, id: string) {
    && Speaks(stored, current, p, source, id)
    && forall other, otherId :: Speaks(stored, current, p, other, otherId) && otherId != id ==> Below(other, source)
  }

  lemma {:induction false} PrevailingClaim(stored: seq<Holder>, current: seq<Holder>, p: Player, source: string,
      id: string)
    requires Prevails(stored, current, p, source, id)
    ensures Claim(stored, current, p) == Some(id)
    decreases Tier(source)
  {
    forall other, s ensures Tier(other) > Tier(s) <==> Below(other, s) {
      TierMeaning(other, s);
    }
    if better, otherId :| Speaks(stored, current, p, better, otherId) && Tier(better) < Tier(source) {
      PrevailingClaim(stored, current, p, better, id);
    } else {
      SpokenClaim(stored, current, p, source, id);
    }
  }

  // ---- one owner, and rebuilding again ------------------------------------------------

  ghost predicate DistinctIdentities(players: seq<Player>) {
    forall i, j :: 0 <= i < j < |players| ==> players[i].identity != players[j].identity
  }

  /** No prior id goes to two identities; whoever takes one has it from a sole-owned source of its best tier. */
  lemma PriorIdGivenOnce(existing: seq<Existing>, players: seq<Player>, i: nat)
    requires i < |players| && First(Claims(existing, players), i)
    ensures var out := Preserved(existing, players); var stored, current := Stored(existing), Current(players);
      && (exists source :: Speaks(stored, current, players[i], source, out[i].id)
             && Outranks(stored, current, players[i], source, out[i].id))
      && forall j :: 0 <= j < |players| && j != i && First(Claims(existing, players), j) ==> out[j].id != out[i].id
  {
    var claims, out := Claims(existing, players), Preserved(existing, players);
    assert out[i].id == claims[i].value;
    ClaimSpoken(Stored(existing), Current(players), players[i], out[i].id);
    forall j | 0 <= j < |players| && j != i && First(claims, j) ensures out[j].id != out[i].id {
      assert out[j].id == claims[j].value && claims[i] != claims[j];
    }
  }

  /** The players as the next rebuild finds them. */
  function StoredPlayers(players: seq<Player>): seq<Existing> {
    seq(|players|, i requires 0 <= i < |players| => Existing(players[i].id, Some(players[i].sourceIds)))
  }

  ghost predicate HasSole(players: seq<Player>, p: Player) {
    exists source :: Sole(Current(players), p, source)
  }

  ghost predicate SameSources(saved: seq<Player>, players: seq<Player>) {
    |saved| == |players| && forall k :: 0 <= k < |players| ==>
        saved[k].sourceIds == players[k].sourceIds && saved[k].identity == players[k].identity
  }

  /** Who owns an alias alone is the only one who had it, so it speaks for that player's stored id alone. */
  lemma SoleSpeaksForItself(saved: seq<Player>, players: seq<Player>, i: nat, source: string, id: string)
    requires SameSources(saved, players) && DistinctIdentities(players) && i < |players|
    requires Sole(Current(players), players[i], source)
    ensures Speaks(Stored(StoredPlayers(saved)), Current(players), players[i], source, id) <==> id == saved[i].id
  {
    var p, stored, current := players[i], Stored(StoredPlayers(saved)), Current(players);
    var alias := Alias(source, p.sourceIds[source]);
    assert stored[i] == Holder(saved[i].id, p.sourceIds) && Has(stored[i], alias);
    forall h | h in stored && Has(h, alias) ensures h.name == saved[i].id {
      var k :| 0 <= k < |stored| && stored[k] == h;
      assert Has(current[k], alias) && current[k] in current;
      assert current[k].name in Owners(current, alias);
    }
  }

  lemma {:induction false} BestFromOnly(stored: seq<Holder>, current: seq<Holder>, p: Player, id: string, t: nat,
      u: nat)
    requires forall source, other :: Speaks(stored, current, p, source, other) ==> other == id
    requires t <= u <= LAST_TIER && AtTier(stored, current, p, u) != {}
    ensures BestFrom(stored, current, p, t) == {id}
    decreases u - t
  {
    if AtTier(stored, current, p, t) == {} {
      BestFromOnly(stored, current, p, id, t + 1, u);
    } else {
      var x :| x in AtTier(stored, current, p, t);
      assert AtTier(stored, current, p, t) == {id};
    }
  }

  /** Found among the stored rows, a player claims its stored id; without a sole-owned source it claims nothing. */
  lemma ClaimsItself(saved: seq<Player>, players: seq<Player>, i: nat)
    requires SameSources(saved, players) && DistinctIdentities(players) && i < |players|
    ensures Claim(Stored(StoredPlayers(saved)), Current(players), players[i])
            == if HasSole(players, players[i]) then Some(saved[i].id) else None
  {
    var p, stored, current := players[i], Stored(StoredPlayers(saved)), Current(players);
    forall source, id | Speaks(stored, current, p, source, id) ensures id == saved[i].id {
      SoleSpeaksForItself(saved, players, i, source, id);
    }
    if source :| Sole(current, p, source) {
      SoleSpeaksForItself(saved, players, i, source, saved[i].id);
      assert saved[i].id in AtTier(stored, current, p, Tier(source));
      BestFromOnly(stored, current, p, saved[i].id, 0, Tier(source));
    } else if BestFrom(stored, current, p, 0) != {} {
      var u := BestFromIsSome(stored, current, p, 0);
      assert false;
    }
  }

  /** Rebuilding the stored players themselves changes nothing. */
  lemma Fixpoint(players: seq<Player>)
    requires DistinctIdentities(players)
    ensures Preserved(StoredPlayers(players), players) == players
  {
    forall i | 0 <= i < |players| ensures Kept(StoredPlayers(players), players, i) == players[i] {
      ClaimsItself(players, players, i);
    }
  }

  ghost predicate Blocked(saved: seq<Player>, players: seq<Player>, i: nat)
    requires i < |players| == |saved|
  {
    exists j :: 0 <= j < i && HasSole(players, players[j]) && saved[j].id == saved[i].id
  }

  lemma KeptAgain(saved: seq<Player>, players: seq<Player>, i: nat)
    requires SameSources(saved, players) && DistinctIdentities(players) && i < |players|
    ensures Kept(StoredPlayers(saved), players, i)
            == if HasSole(players, players[i]) && !Blocked(saved, players, i)
               then players[i].(id := saved[i].id)
               else players[i]
  {
    var claims := Claims(StoredPlayers(saved), players);
    forall j | 0 <= j <= i ensures claims[j] == if HasSole(players, players[j]) then Some(saved[j].id) else None {
      ClaimsItself(saved, players, j);
    }
  }

  /**
   Player i takes over a prior id, and an earlier player with a sole-owned source has that very id
   as its fresh one and keeps it.
   */
  ghost predicate Collides(existing: seq<Existing>, players: seq<Player>, j: nat, i: nat)
    requires j < i < |players|
  {
    var claims := Claims(existing, players);
    && First(claims, i) && claims[i] != Some(players[i].id)
    && !First(claims, j) && HasSole(players, players[j]) && claims[i] == Some(players[j].id)
  }

  /** The same rebuild over its own result gives that result again, unless a fresh id collides with a kept one. */
  lemma RebuildStable(existing: seq<Existing>, players: seq<Player>)
    requires DistinctIdentities(players)
    ensures Preserved(StoredPlayers(Preserved(existing, players)), players) == Preserved(existing, players)
            <==> forall j, i :: 0 <= j < i < |players| ==> !Collides(existing, players, j, i)
  {
    var out := Preserved(existing, players);
    var again := Preserved(StoredPlayers(out), players);
    if again == out {
      forall j, i | 0 <= j < i < |players| ensures !Collides(existing, players, j, i) {
        PlayerStable(existing, players, i);
      }
    }
    if forall j, i :: 0 <= j < i < |players| ==> !Collides(existing, players, j, i) {
      forall i | 0 <= i < |players| ensures again[i] == out[i] {
        PlayerStable(existing, players, i);
      }
    }
  }

  lemma PlayerStable(existing: seq<Existing>, players: seq<Player>, i: nat)
    requires DistinctIdentities(players) && i < |players|
    ensures Preserved(StoredPlayers(Preserved(existing, players)), players)[i] == Preserved(existing, players)[i]
            <==> forall j :: 0 <= j < i ==> !Collides(existing, players, j, i)
  {
    var out := Preserved(existing, players);
    assert SameSources(out, players);
    KeptAgain(out, players, i);
    assert out[i] == players[i].(id := out[i].id);
    if out[i] != players[i] {
      PriorIdGivenOnce(existing, players, i);
      assert HasSole(players, players[i]);
      forall j | 0 <= j < i
        ensures Collides(existing, players, j, i) <==> HasSole(players, players[j]) && out[j].id == out[i].id
      {
        assert First(Claims(existing, players), j) ==> out[j].id != out[i].id;
      }
      assert Blocked(out, players, i) <==> exists j :: 0 <= j < i && Collides(existing, players, j, i);
    }
  }

  lemma OneSource(h: Holder, id: string)
    requires h.sourceIds == map["tml" := id] && (id == "1" || id == "2")
    ensures Has(h, "tml:1") <==> id == "1"
    ensures Has(h, "tml:2") <==> id == "2"
    ensures Alias("tml", id) == "tml:" + id
  {
    assert "tml" in h.sourceIds && h.sourceIds["tml"] == id && Alias("tml", id) == "tml:" + id;
    assert "tml:1"[4] != "tml:2"[4];
  }

  /** Who has the two aliases when the second player's was a stored player's. */
  lemma TwoAliases(stored: seq<Holder>, current: seq<Holder>)
    requires stored == [Holder("x", map["tml" := "2"])]
    requires current == [Holder("a", map["tml" := "1"]), Holder("b", map["tml" := "2"])]
    ensures Owners(current, "tml:1") == {"a"} && Owners(current, "tml:2") == {"b"}
    ensures Owners(stored, "tml:1") == {} && Owners(stored, "tml:2") == {"x"}
    ensures Alias("tml", "1") == "tml:1" && Alias("tml", "2") == "tml:2"
  {
    OneSource(current[0], "1");
    OneSource(current[1], "2");
    OneSource(stored[0], "2");
    assert current[0] in current && current[1] in current && stored[0] in stored;
  }

  lemma SecondClaims(stored: seq<Holder>, current: seq<Holder>, p: Player, q: Player)
    requires stored == [Holder("x", map["tml" := "2"])]
    requires current == [Holder("a", map["tml" := "1"]), Holder("b", map["tml" := "2"])]
    requires p.identity == "a" && p.sourceIds == map["tml" := "1"] && q.identity == "b" &&
        q.sourceIds == map["tml" := "2"]
    ensures Claim(stored, current, p) == None && Claim(stored, current, q) == Some("x") && Sole(current, p, "tml")
  {
    TwoAliases(stored, current);
    assert Speaks(stored, current, q, "tml", "x");
    SpokenClaim(stored, current, q, "tml", "x");
    if Claim(stored, current, p).Some? {
      ClaimSpoken(stored, current, p, Claim(stored, current, p).value);
    }
  }

  lemma CollidesHere(existing: seq<Existing>, players: seq<Player>)
    requires |players| == 2 && DistinctIdentities(players) && players[1].id != players[0].id
    requires Claim(Stored(existing), Current(players), players[0]) == None
    requires Claim(Stored(existing), Current(players), players[1]) == Some(players[0].id)
    requires HasSole(players, players[0])
    ensures Preserved(StoredPlayers(Preserved(existing, players)), players) != Preserved(existing, players)
  {
    var claims := Claims(existing, players);
    assert claims == [None, Some(players[0].id)];
    assert Collides(existing, players, 0, 1);
    RebuildStable(existing, players);
  }

  /** Such a collision is possible: the fresh id of a new player is one that another player takes over. */
  lemma FreshIdCollides() returns (existing: seq<Existing>, players: seq<Player>)
    ensures DistinctIdentities(players)
    ensures Preserved(StoredPlayers(Preserved(existing, players)), players) != Preserved(existing, players)
  {
    var new_, kept := Player("a", "x", map["tml" := "1"], ""), Player("b", "y", map["tml" := "2"], "");
    existing, players := [Existing("x", Some(map["tml" := "2"]))], [new_, kept];
    var current := Current(players);
    assert current == [Holder("a", map["tml" := "1"]), Holder("b", map["tml" := "2"])];
    SecondClaims(Stored(existing), current, new_, kept);
    assert Sole(current, new_, "tml");
    CollidesHere(existing, players);
  }

  // ---- the loops ----------------------------------------------------------------------

  function At(index: map<string, set<string>>, alias: string): set<string> {
    if alias in index then index[alias] else {}
  }

  ghost predicate Indexes(index: map<string, set<string>>, holders: seq<Holder>) {
    forall alias :: At(index, alias) == Owners(holders, alias)
  }

  /** The index with some sources of one more holder. */
  ghost predicate Partly(index: map<string, set<string>>, holders: seq<Holder>, h: Holder, done: set<string>) {
    forall alias :: At(index, alias) == Owners(holders, alias) + if HasIn(h, alias, done) then {h.name} else {}
  }

  ghost predicate HasIn(h: Holder, alias: string, done: set<string>) {
    exists source :: source in done && source in h.sourceIds && h.sourceIds[source] != ""
        && Alias(source, h.sourceIds[source]) == alias
  }

  lemma PartlyStep(index: map<string, set<string>>, holders: seq<Holder>, h: Holder, done: set<string>, source: string)
    requires Partly(index, holders, h, done) && source in h.sourceIds
    ensures var id := h.sourceIds[source]; var alias := Alias(source, id);
      Partly(if id != "" then index[alias := At(index, alias) + {h.name}] else index, holders, h, done + {source})
  {
    var id := h.sourceIds[source];
    forall a ensures HasIn(h, a, done + {source}) <==> HasIn(h, a, done) || (id != "" && Alias(source, id) == a) {
      if id != "" && Alias(source, id) == a {
        assert source in done + {source};
      }
    }
  }

  method AddHolder(before: map<string, set<string>>, h: Holder, ghost holders: seq<Holder>)
      returns (index: map<string, set<string>>)
    requires Indexes(before, holders)
    ensures Indexes(index, holders + [h])
  {
    index := before;
    var todo := h.sourceIds.Keys;
    while todo != {}
      invariant todo <= h.sourceIds.Keys && Partly(index, holders, h, h.sourceIds.Keys - todo)
    {
      var source :| source in todo;
      PartlyStep(index, holders, h, h.sourceIds.Keys - todo, source);
      assert h.sourceIds.Keys - todo + {source} == h.sourceIds.Keys - (todo - {source});
      var id := h.sourceIds[source];
      if id != "" {
        index := index[Alias(source, id) := At(index, Alias(source, id)) + {h.name}];
      }
      todo := todo - {source};
    }
  }

  /** Who has which alias. */
  method Index(holders: seq<Holder>) returns (index: map<string, set<string>>)
    ensures Indexes(index, holders)
  {
    index := map[];
    for i := 0 to |holders|
      invariant Indexes(index, holders[..i])
    {
      assert holders[..i + 1] == holders[..i] + [holders[i]];
      index := AddHolder(index, holders[i], holders[..i]);
    }
    assert holders[..|holders|] == holders;
  }

  /** The candidates of the sources looked at so far. */
  ghost function AtTierOf(stored: seq<Holder>, current: seq<Holder>, p: Player, t: nat,
      done: set<string>): set<string> {
    set source, id | source in p.sourceIds && source in done && Tier(source) == t
      && id in Owners(stored, Alias(source, p.sourceIds[source])) && Speaks(stored, current, p, source, id) :: id
  }

  function AtTierIn(byTier: map<nat, set<string>>, t: nat): set<string> {
    if t in byTier then byTier[t] else {}
  }

  ghost predicate Sorted(byTier: map<nat, set<string>>, stored: seq<Holder>, current: seq<Holder>, p: Player,
      done: set<string>) {
    forall t: nat :: AtTierIn(byTier, t) == AtTierOf(stored, current, p, t, done)
  }

  lemma SortedStep(byTier: map<nat, set<string>>, stored: seq<Holder>, current: seq<Holder>, p: Player,
      done: set<string>, source: string)
    requires Sorted(byTier, stored, current, p, done) && source in p.sourceIds
    ensures var prior := Owners(stored, Alias(source, p.sourceIds[source]));
      Sorted(if Sole(current, p, source) then byTier[Tier(source) := AtTierIn(byTier, Tier(source)) + prior]
          else byTier,
             stored, current, p, done + {source})
  {
    var prior := if Sole(current, p, source) then Owners(stored, Alias(source, p.sourceIds[source])) else {};
    forall t: nat ensures AtTierOf(stored, current, p, t, done + {source})
                          == AtTierOf(stored, current, p, t, done) + if t == Tier(source) then prior else {} {
    }
  }

  /** The ids a player may take: the first tier that offers any. */
  method Candidates(p: Player, aliases: map<string, set<string>>, owners: map<string, set<string>>,
      ghost stored: seq<Holder>, ghost current: seq<Holder>)
    returns (ids: set<string>)
    requires Indexes(aliases, stored) && Indexes(owners, current)
    ensures ids == BestFrom(stored, current, p, 0)
  {
    var byTier: map<nat, set<string>> := map[];
    var todo := p.sourceIds.Keys;
    while todo != {}
      invariant todo <= p.sourceIds.Keys && Sorted(byTier, stored, current, p, p.sourceIds.Keys - todo)
    {
      var source :| source in todo;
      SortedStep(byTier, stored, current, p, p.sourceIds.Keys - todo, source);
      assert p.sourceIds.Keys - todo + {source} == p.sourceIds.Keys - (todo - {source});
      var alias := Alias(source, p.sourceIds[source]);
      if p.sourceIds[source] != "" && At(owners, alias) == {p.identity} {
        byTier := byTier[Tier(source) := AtTierIn(byTier, Tier(source)) + At(aliases, alias)];
      }
      todo := todo - {source};
    }
    forall t: nat ensures AtTierIn(byTier, t) == AtTier(stored, current, p, t) {
      assert AtTierOf(stored, current, p, t, p.sourceIds.Keys - todo) == AtTier(stored, current, p, t);
    }
    ids := FirstOffer(byTier, stored, current, p);
  }

  method FirstOffer(byTier: map<nat, set<string>>, ghost stored: seq<Holder>, ghost current: seq<Holder>, p: Player)
      returns (ids: set<string>)
    requires forall t: nat :: AtTierIn(byTier, t) == AtTier(stored, current, p, t)
    ensures ids == BestFrom(stored, current, p, 0)
  {
    for t := 0 to LAST_TIER + 1
      invariant BestFrom(stored, current, p, 0) == BestFrom(stored, current, p, t)
    {
      if AtTierIn(byTier, t) != {} {
        return AtTierIn(byTier, t);
      }
    }
    ids := {};
  }

  /** What a set of candidates means for player i. */
  lemma OneClaim(existing: seq<Existing>, players: seq<Player>, i: nat, candidates: set<string>)
    requires i < |players| && candidates == BestFrom(Stored(existing), Current(players), players[i], 0)
    ensures var claims := Claims(existing, players);
      if |candidates| != 1 then Used(claims[..i + 1]) == Used(claims[..i]) && Kept(existing, players, i) == players[i]
      else forall id :: id in candidates ==>
        && Used(claims[..i + 1]) == Used(claims[..i]) + {id}
        && Kept(existing, players, i) == if id in Used(claims[..i]) then players[i] else players[i].(id := id)
  {
    var claims := Claims(existing, players);
    assert claims[i] == Only(candidates);
    if |candidates| == 1 {
      UsedMeansNotFirst(claims, i);
    } else {
      UnusedStays(claims, i);
    }
  }

  /** One player: its only candidate, unless an earlier player has used it. */
  method KeepPlayer(ghost existing: seq<Existing>, ghost was: seq<Player>, ghost i: nat, p: Player,
      candidates: set<string>, used: set<string>)
    returns (kept: Player, used': set<string>)
    requires i < |was| && p == was[i] && candidates == BestFrom(Stored(existing), Current(was), p, 0)
    requires used == Used(Claims(existing, was)[..i])
    ensures kept == Kept(existing, was, i) && used' == Used(Claims(existing, was)[..i + 1])
  {
    OneClaim(existing, was, i, candidates);
    kept, used' := p, used;
    if |candidates| == 1 {
      var id :| id in candidates;
      if id !in used {
        kept, used' := p.(id := id), used + {id};
      }
    }
  }

  /** The ids of the rebuilt players are overwritten in place. */
  method PreservePlayerIds(players: array<Player>, existing: seq<Existing>)
    modifies players
    ensures players[..] == Preserved(existing, old(players[..]))
  {
    ghost var was := players[..];
    var stored, current := Stored(existing), Current(players[..]);
    var aliases := Index(stored);
    var owners := Index(current);
    var used: set<string> := {};
    for i := 0 to players.Length
      invariant used == Used(Claims(existing, was)[..i])
      invariant forall k :: 0 <= k < i ==> players[k] == Kept(existing, was, k)
      invariant forall k :: i <= k < players.Length ==> players[k] == was[k]
    {
      var candidates := Candidates(players[i], aliases, owners, stored, current);
      players[i], used := KeepPlayer(existing, was, i, players[i], candidates, used);
    }
  }
}
