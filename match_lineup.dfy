/** The match lineup board: a 4-4-2 formation of eleven fixed slots, a map
    from slot id to the player standing in it, and a list of substitutes.
    Players are dragged from the available list (the roster minus the
    field minus the bench) onto a slot, which overwrites whoever stood
    there; a click on an available player benches them. The lineup can be
    saved once all eleven slots are filled. */
module MatchLineup {
  import opened Lists

  datatype Player = Player(id: int, name: string, position: string, number: int)

  /** A place in the formation; `x` and `y` are its position on the pitch
      in percent. */
  datatype PositionSlot = PositionSlot(id: string, position: string, x: int, y: int)

  /** `{ ...player, positionSlot, isStarter }`. */
  datatype LineupPlayer = LineupPlayer(player: Player, positionSlot: string, isStarter: bool)

  /** The slot map: which player stands in which slot. */
  type Lineup = map<string, LineupPlayer>

  /** The component's two pieces of lineup state. */
  datatype Snapshot = Snapshot(lineup: Lineup, substitutes: seq<Player>)

  /** The squad the board draws from. */
  const MockPlayers: seq<Player> := [
    Player(1, "Alex Johnson", "Forward", 9),
    Player(2, "Sam Martinez", "Midfielder", 10),
    Player(3, "Jordan Lee", "Defender", 4),
    Player(4, "Taylor Brown", "Goalkeeper", 1),
    Player(5, "Casey Wilson", "Midfielder", 8),
    Player(6, "Morgan Davis", "Forward", 11),
    Player(7, "River Thompson", "Defender", 5),
    Player(8, "Avery Garcia", "Midfielder", 7),
    Player(9, "Jamie Parker", "Defender", 3),
    Player(10, "Riley Chen", "Defender", 2),
    Player(11, "Cameron White", "Midfielder", 6)
  ]

  /** The eleven slots of the 4-4-2. */
  const FormationPositions: seq<PositionSlot> := [
    PositionSlot("gk-1", "GK", 50, 90),
    PositionSlot("lb-1", "LB", 20, 70),
    PositionSlot("cb-1", "CB", 40, 70),
    PositionSlot("cb-2", "CB", 60, 70),
    PositionSlot("rb-1", "RB", 80, 70),
    PositionSlot("lm-1", "LM", 20, 45),
    PositionSlot("cm-1", "CM", 40, 45),
    PositionSlot("cm-2", "CM", 60, 45),
    PositionSlot("rm-1", "RM", 80, 45),
    PositionSlot("st-1", "ST", 35, 20),
    PositionSlot("st-2", "ST", 65, 20)
  ]

  function SlotIdOf(s: PositionSlot): string { s.id }

  function PlayerId(p: Player): int { p.id }

  /** The ids of the drop targets on the pitch. */
  const SlotIds: seq<string> :=
    ["gk-1", "lb-1", "cb-1", "cb-2", "rb-1", "lm-1", "cm-1", "cm-2", "rm-1", "st-1", "st-2"]

  /** They are the ids of the formation's slots, in order. */
  lemma FormationSlotIds()
    ensures |FormationPositions| == |SlotIds|
    ensures forall i :: 0 <= i < |SlotIds| ==> FormationPositions[i].id == SlotIds[i]
  {
  }

  /** There are eleven slots and no two share an id. */
  lemma SlotIdsDistinct()
    ensures |SlotIds| == 11 && NoDup(SlotIds)
  {
  }

  /** Some slot holds a player with that id. */
  predicate OnField(lineup: Lineup, id: int) {
    exists s :: s in lineup && lineup[s].player.id == id
  }

  /** Some substitute has that id. */
  predicate OnBench(subs: seq<Player>, id: int) {
    exists i :: 0 <= i < |subs| && subs[i].id == id
  }

  /** The players of `roster`, in order, that are neither on the field nor
      on the bench (compared by id). */
  function AvailableAmong(roster: seq<Player>, lineup: Lineup, subs: seq<Player>): (r: seq<Player>)
    ensures forall p :: p in r <==> p in roster && !OnField(lineup, p.id) && !OnBench(subs, p.id)
    ensures |r| <= |roster|
  {
    if roster == [] then []
    else
      var p := roster[0];
      (if !OnField(lineup, p.id) && !OnBench(subs, p.id) then [p] else [])
        + AvailableAmong(roster[1..], lineup, subs)
  }

  /** `availablePlayers`: the squad minus the field minus the bench. */
  function AvailablePlayers(lineup: Lineup, subs: seq<Player>): (r: seq<Player>)
    ensures forall p :: p in r <==> p in MockPlayers && !OnField(lineup, p.id) && !OnBench(subs, p.id)
    ensures |r| <= |MockPlayers|
  {
    AvailableAmong(MockPlayers, lineup, subs)
  }

  /** The shape every reachable slot map has: only formation slots are
      keys, and each entry records its own slot and starts. */
  predicate WellFormed(lineup: Lineup) {
    forall s :: s in lineup ==> s in SlotIds && lineup[s].positionSlot == s && lineup[s].isStarter
  }

  /** Nobody is in two places: no id stands in two slots, no starter is on
      the bench, and nobody is benched twice. */
  ghost predicate Exclusive(lineup: Lineup, subs: seq<Player>) {
    && (forall s, t :: s in lineup && t in lineup && s != t ==> lineup[s].player.id != lineup[t].player.id)
    && (forall s :: s in lineup ==> !OnBench(subs, lineup[s].player.id))
    && KeysUnique(subs, PlayerId)
  }

  /** The entry `handleDropToField` writes. */
  function Placed(player: Player, slotId: string): (lp: LineupPlayer)
    ensures lp.player == player && lp.positionSlot == slotId && lp.isStarter
  {
    LineupPlayer(player, slotId, true)
  }

  /** A drop of an available player keeps everybody in one place. The
      lemmas below hold for any roster; the page's is `MockPlayers`. */
  lemma DropKeepsExclusive(roster: seq<Player>, lineup: Lineup, subs: seq<Player>, player: Player, slotId: string)
    requires Exclusive(lineup, subs)
    requires player in AvailableAmong(roster, lineup, subs)
    ensures Exclusive(lineup[slotId := Placed(player, slotId)], subs)
  {
    var l := lineup[slotId := Placed(player, slotId)];
    forall s, t | s in l && t in l && s != t ensures l[s].player.id != l[t].player.id {
      if s == slotId {
        assert t in lineup && lineup[t].player.id == l[t].player.id;
      } else if t == slotId {
        assert s in lineup && lineup[s].player.id == l[s].player.id;
      }
    }
  }

  /** Dropping onto an occupied slot overwrites it: the player who stood
      there is available again, and the dropped player no longer is. */
  lemma DisplacedReappears(roster: seq<Player>, lineup: Lineup, subs: seq<Player>, player: Player, slotId: string)
    requires Exclusive(lineup, subs)
    requires player in AvailableAmong(roster, lineup, subs)
    requires slotId in lineup && lineup[slotId].player in roster
    ensures lineup[slotId].player in AvailableAmong(roster, lineup[slotId := Placed(player, slotId)], subs)
    ensures player !in AvailableAmong(roster, lineup[slotId := Placed(player, slotId)], subs)
  {
    var l := lineup[slotId := Placed(player, slotId)];
    var gone := lineup[slotId].player;
    assert !OnField(l, gone.id) by {
      forall s | s in l ensures l[s].player.id != gone.id {
        if s == slotId {
          assert !OnField(lineup, player.id);
        } else {
          assert lineup[s] == l[s];
        }
      }
    }
    assert !OnBench(subs, gone.id);
    assert l[slotId].player.id == player.id;
  }

  /** Removing from a slot frees exactly that player. */
  lemma RemoveFrees(roster: seq<Player>, lineup: Lineup, subs: seq<Player>, slotId: string)
    requires Exclusive(lineup, subs)
    requires slotId in lineup && lineup[slotId].player in roster
    ensures lineup[slotId].player in AvailableAmong(roster, lineup - {slotId}, subs)
  {
    var l := lineup - {slotId};
    var gone := lineup[slotId].player;
    assert !OnField(l, gone.id) by {
      forall s | s in l ensures l[s].player.id != gone.id {
        assert lineup[s] == l[s];
      }
    }
  }

  /** Removing from a slot keeps everybody in one place. */
  lemma RemoveKeepsExclusive(lineup: Lineup, subs: seq<Player>, slotId: string)
    requires Exclusive(lineup, subs)
    ensures Exclusive(lineup - {slotId}, subs)
  {
  }

  /** Benching an available player keeps everybody in one place. */
  lemma AddSubstituteKeepsExclusive(roster: seq<Player>, lineup: Lineup, subs: seq<Player>, player: Player)
    requires Exclusive(lineup, subs)
    requires player in AvailableAmong(roster, lineup, subs)
    ensures Exclusive(lineup, subs + [player])
    ensures player !in AvailableAmong(roster, lineup, subs + [player])
  {
    var r := subs + [player];
    assert r[|subs|] == player;
    forall i, j | 0 <= i < j < |r| ensures PlayerId(r[i]) != PlayerId(r[j]) {
      assert r[i] == subs[i];
      if j < |subs| {
        assert r[j] == subs[j];
      }
    }
    forall s | s in lineup ensures !OnBench(r, lineup[s].player.id) {
      assert !OnBench(subs, lineup[s].player.id);
      forall i | 0 <= i < |r| ensures r[i].id != lineup[s].player.id {
        if i < |subs| {
          assert r[i] == subs[i];
        }
      }
    }
  }

  /** Each element of a set drawn from a list is counted in its length. */
  lemma {:induction false} SetFromList(keys: set<string>, s: seq<string>)
    requires forall k :: k in keys ==> k in s
    ensures |keys| <= |s|
  {
    if s != [] {
      var rest := keys - {s[0]};
      forall k | k in rest ensures k in s[1..] {
        var i :| 0 <= i < |s| && s[i] == k;
        assert i != 0;
        assert s[1..][i - 1] == k;
      }
      SetFromList(rest, s[1..]);
    } else {
      assert keys == {};
    }
  }

  /** At most eleven slots can be filled. */
  lemma AtMostEleven(lineup: Lineup)
    requires WellFormed(lineup)
    ensures |lineup| <= 11
  {
    SlotIdsDistinct();
    SetFromList(lineup.Keys, SlotIds);
  }

  /** A set of distinct list elements missing one of them is shorter than
      the list. */
  lemma {:induction false} SetFromListMissing(keys: set<string>, s: seq<string>, gap: string)
    requires forall k :: k in keys ==> k in s
    requires NoDup(s) && gap in s && gap !in keys
    ensures |keys| < |s|
  {
    var i :| 0 <= i < |s| && s[i] == gap;
    var rest := s[..i] + s[i + 1..];
    forall k | k in keys ensures k in rest {
      var j :| 0 <= j < |s| && s[j] == k;
      assert j != i;
      if j < i {
        assert rest[j] == k;
      } else {
        assert rest[j - 1] == k;
      }
    }
    SetFromList(keys, rest);
  }

  /** Eleven entries means every slot of the formation is filled, and the
      other way round. */
  lemma ElevenIffComplete(lineup: Lineup)
    requires WellFormed(lineup)
    ensures |lineup| >= 11 <==> forall s :: s in SlotIds ==> s in lineup
  {
    SlotIdsDistinct();
    AtMostEleven(lineup);
    if |lineup| >= 11 {
      forall s | s in SlotIds ensures s in lineup {
        if s !in lineup {
          SetFromListMissing(lineup.Keys, SlotIds, s);
        }
      }
    }
    if forall s :: s in SlotIds ==> s in lineup {
      var keys := set s | s in SlotIds;
      assert keys <= lineup.Keys;
      SetOfDistinctList(SlotIds);
      SubsetSize(keys, lineup.Keys);
    }
  }

  lemma {:induction false} SetOfDistinctList(s: seq<string>)
    requires NoDup(s)
    ensures |set k | k in s| == |s|
  {
    if s != [] {
      assert NoDup(s[1..]) by {
        forall i, j | 0 <= i < j < |s[1..]| ensures s[1..][i] != s[1..][j] {
          assert s[1..][i] == s[i + 1] && s[1..][j] == s[j + 1];
        }
      }
      SetOfDistinctList(s[1..]);
      assert s[0] !in s[1..] by {
        forall i | 0 <= i < |s[1..]| ensures s[1..][i] != s[0] {
          assert s[1..][i] == s[i + 1];
        }
      }
      assert (set k | k in s) == (set k | k in s[1..]) + {s[0]};
    }
  }

  lemma SubsetSize(a: set<string>, b: set<string>)
    requires a <= b
    ensures |a| <= |b|
  {
    assert b == a + (b - a);
  }

  /** One gesture on the board. */
  datatype Gesture = DropOn(player: Player, slotId: string) | RemoveFrom(slotId: string) | Bench(player: Player)

  /** The gestures the page makes possible: only available players of the
      roster can be dragged or clicked, and drops land on formation slots. */
  predicate Allowed(roster: seq<Player>, st: Snapshot, g: Gesture) {
    match g
    case DropOn(p, slotId) => p in AvailableAmong(roster, st.lineup, st.substitutes) && slotId in SlotIds
    case RemoveFrom(_) => true
    case Bench(p) => p in AvailableAmong(roster, st.lineup, st.substitutes)
  }

  /** What each handler does to the two pieces of state. */
  function Apply(st: Snapshot, g: Gesture): Snapshot {
    match g
    case DropOn(p, slotId) => st.(lineup := st.lineup[slotId := Placed(p, slotId)])
    case RemoveFrom(slotId) => st.(lineup := st.lineup - {slotId})
    case Bench(p) => st.(substitutes := st.substitutes + [p])
  }

  /** Every gesture of the series is allowed when it is made. */
  predicate AllAllowed(roster: seq<Player>, st: Snapshot, gs: seq<Gesture>)
    decreases |gs|
  {
    gs == [] || (Allowed(roster, st, gs[0]) && AllAllowed(roster, Apply(st, gs[0]), gs[1..]))
  }

  function Replay(st: Snapshot, gs: seq<Gesture>): Snapshot
    decreases |gs|
  {
    if gs == [] then st else Replay(Apply(st, gs[0]), gs[1..])
  }

  /** A single allowed gesture keeps the board well formed and everybody in
      one place. */
  lemma ApplyKeepsInvariant(roster: seq<Player>, st: Snapshot, g: Gesture)
    requires WellFormed(st.lineup) && Exclusive(st.lineup, st.substitutes)
    requires Allowed(roster, st, g)
    ensures var r := Apply(st, g); WellFormed(r.lineup) && Exclusive(r.lineup, r.substitutes)
  {
    match g
    case DropOn(p, slotId) => DropKeepsExclusive(roster, st.lineup, st.substitutes, p, slotId);
    case RemoveFrom(slotId) => RemoveKeepsExclusive(st.lineup, st.substitutes, slotId);
    case Bench(p) => AddSubstituteKeepsExclusive(roster, st.lineup, st.substitutes, p);
  }

  /** Whatever series of allowed gestures is made from a consistent board,
      no player occupies two slots, no starter is benched, the bench has no
      repeats, and at most eleven slots are filled. */
  lemma {:induction false} ReplayKeepsInvariant(roster: seq<Player>, st: Snapshot, gs: seq<Gesture>)
    requires WellFormed(st.lineup) && Exclusive(st.lineup, st.substitutes)
    requires AllAllowed(roster, st, gs)
    ensures var r := Replay(st, gs);
      WellFormed(r.lineup) && Exclusive(r.lineup, r.substitutes) && |r.lineup| <= 11
    decreases |gs|
  {
    if gs == [] {
      AtMostEleven(st.lineup);
    } else {
      ApplyKeepsInvariant(roster, st, gs[0]);
      ReplayKeepsInvariant(roster, Apply(st, gs[0]), gs[1..]);
    }
  }

  /** `handleDropToField` as a slot's drop target runs it. The drop spec is
      built once, when the slot first renders, so the handler it calls copies
      `mounted`, the lineup of that render, instead of the current one. */
  function StaleDrop(mounted: Lineup, player: Player, slotId: string): (r: Lineup)
    ensures slotId in r && r[slotId] == Placed(player, slotId)
    ensures forall s :: s in r <==> s in mounted || s == slotId
    ensures forall s :: s in mounted && s != slotId ==> r[s] == mounted[s]
  {
    mounted[slotId := Placed(player, slotId)]
  }

  /** As written: the slots first render with the empty lineup, so after a
      drop on the goalkeeper's slot and then one on the left back's, only
      the left back is on the field, and no later drop can raise the field
      above one player, so the save never opens. */
  lemma StaleDropForgetsEarlierDrops(p: Player, q: Player, slotId: string)
    ensures "gk-1" in StaleDrop(map[], p, "gk-1")
    ensures "gk-1" !in StaleDrop(map[], q, "lb-1")
    ensures |StaleDrop(map[], p, slotId)| == 1
  {
    assert StaleDrop(map[], p, slotId).Keys == {slotId};
  }

  /** Corrected: a drop applied to the current lineup keeps the players
      placed by earlier drops on other slots. */
  lemma DropsAccumulate(st: Snapshot, p: Player, q: Player, s1: string, s2: string)
    requires s1 != s2
    ensures var r := Apply(Apply(st, DropOn(p, s1)), DropOn(q, s2));
      s1 in r.lineup && r.lineup[s1] == Placed(p, s1)
      && s2 in r.lineup && r.lineup[s2] == Placed(q, s2)
      && r.substitutes == st.substitutes
  {
  }

  class Board {
    var lineup: Lineup
    var substitutes: seq<Player>

    ghost predicate Valid()
      reads this
    {
      WellFormed(lineup)
    }

    constructor ()
      ensures Valid() && lineup == map[] && substitutes == []
    {
      lineup := map[];
      substitutes := [];
    }

    function Available(): (r: seq<Player>)
      reads this
      ensures forall p :: p in r <==> p in MockPlayers && !OnField(lineup, p.id) && !OnBench(substitutes, p.id)
    {
      AvailablePlayers(lineup, substitutes)
    }

    /** `handleDropToField`: a copy of the map gets the slot set to the
        player; every other slot keeps its occupant. */
    method DropToField(player: Player, slotId: string)
      requires Valid() && slotId in SlotIds
      modifies this`lineup
      ensures Valid()
      ensures lineup == old(lineup)[slotId := Placed(player, slotId)]
    {
      var newLineup := lineup;
      newLineup := newLineup[slotId := Placed(player, slotId)];
      lineup := newLineup;
    }

    /** `handleRemoveFromField`: a copy of the map has the slot deleted; an
        empty slot stays empty and nothing else changes. */
    method RemoveFromField(slotId: string)
      requires Valid()
      modifies this`lineup
      ensures Valid()
      ensures lineup == old(lineup) - {slotId}
    {
      var newLineup := lineup;
      newLineup := newLineup - {slotId};
      lineup := newLineup;
    }

    /** `handleAddSubstitute`: the player goes at the end of the bench. */
    method AddSubstitute(player: Player)
      modifies this`substitutes
      ensures substitutes == old(substitutes) + [player]
    {
      substitutes := substitutes + [player];
    }

    /** `handleSaveLineup`: refused while fewer than eleven slots are
        filled, that is, until every slot of the formation holds somebody. */
    method SaveLineup() returns (ok: bool)
      requires Valid()
      ensures ok <==> |lineup| == 11
      ensures ok <==> forall s :: s in SlotIds ==> s in lineup
    {
      AtMostEleven(lineup);
      ElevenIffComplete(lineup);
      ok := !(|lineup| < 11);
    }
  }
}
