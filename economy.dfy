/** The player's save data and the economy that works on it: daily challenges
    and their progress, the skin and sky shop, and claiming challenge rewards.
    Only the updates to the save data are modelled. */
module Economy {
  import opened Sequences

  datatype ChallengeKind = PlaceBlocks | ScoreSingle | PerfectTotal | PerfectStreak

  /** A daily challenge item (its id, name and description are display text). */
  datatype Challenge = Challenge(kind: ChallengeKind, goal: nat, reward: nat,
                                 progress: nat, completed: bool, claimed: bool)

  /** A challenge is completed exactly when its progress has reached its goal, and
      only a completed challenge can have been claimed. */
  predicate Consistent(c: Challenge) {
    c.completed == (c.progress >= c.goal) && (c.claimed ==> c.completed)
  }

  /** What the simulation reports to the challenge bookkeeping. */
  datatype Event = PlacedBlock | Perfect(streak: nat) | RunEnd(score: nat)

  /** Whether updateChallengeProgress looks at challenge `c` for event `ev`. */
  predicate Touches(c: Challenge, ev: Event) {
    && !c.claimed
    && match ev
       case PlacedBlock => c.kind == PlaceBlocks
       case Perfect(_) => c.kind == PerfectTotal || c.kind == PerfectStreak
       case RunEnd(_) => c.kind == ScoreSingle
  }

  function NatMax(a: nat, b: nat): nat { if a >= b then a else b }

  /** applyCompletion */
  function Completion(c: Challenge): Challenge {
    c.(completed := c.progress >= c.goal)
  }

  /** One challenge after one event: counting challenges go up by one, record
      challenges keep the best value seen; claimed challenges are left alone. */
  function ProgressOne(c: Challenge, ev: Event): Challenge {
    if c.claimed then c
    else
      match ev
      case PlacedBlock =>
        if c.kind == PlaceBlocks then Completion(c.(progress := c.progress + 1)) else c
      case Perfect(streak) =>
        if c.kind == PerfectTotal then Completion(c.(progress := c.progress + 1))
        else if c.kind == PerfectStreak then Completion(c.(progress := NatMax(c.progress, streak)))
        else c
      case RunEnd(score) =>
        if c.kind == ScoreSingle then Completion(c.(progress := NatMax(c.progress, score))) else c
  }

  /** What one event does to one challenge: a challenge the event does not
      concern (in particular a claimed one) is unchanged; otherwise only its
      progress and completion change, progress never goes down, counting
      challenges advance by exactly one, record challenges move to the larger of
      their progress and the reported value, and completion is recomputed from
      the new progress. */
  lemma ProgressOneSpec(c: Challenge, ev: Event)
    ensures var r := ProgressOne(c, ev);
            && (!Touches(c, ev) ==> r == c)
            && r == c.(progress := r.progress, completed := r.completed)
            && r.progress >= c.progress
            && (Touches(c, ev) ==> r.completed == (r.progress >= r.goal))
            && (Touches(c, ev) && (c.kind == PlaceBlocks || c.kind == PerfectTotal) ==> r.progress == c.progress + 1)
            && (Touches(c, ev) && ev.Perfect? && c.kind == PerfectStreak ==>
                  r.progress >= ev.streak && (r.progress == c.progress || r.progress == ev.streak))
            && (Touches(c, ev) && ev.RunEnd? ==>
                  r.progress >= ev.score && (r.progress == c.progress || r.progress == ev.score))
            && (Consistent(c) ==> Consistent(r))
  {
  }

  function ProgressAll(cs: seq<Challenge>, ev: Event): (r: seq<Challenge>)
    ensures |r| == |cs|
  {
    seq(|cs|, i requires 0 <= i < |cs| => ProgressOne(cs[i], ev))
  }

  /** updateChallengeProgress over the whole list: claimed challenges are left
      exactly as they were, no progress goes down, and consistent challenges
      stay consistent. */
  lemma {:induction false} ProgressAllSpec(cs: seq<Challenge>, ev: Event)
    ensures forall i :: 0 <= i < |cs| && cs[i].claimed ==> ProgressAll(cs, ev)[i] == cs[i]
    ensures forall i :: 0 <= i < |cs| ==> ProgressAll(cs, ev)[i].progress >= cs[i].progress
    ensures forall i :: 0 <= i < |cs| && Consistent(cs[i]) ==> Consistent(ProgressAll(cs, ev)[i])
  {
    forall i | 0 <= i < |cs|
      ensures cs[i].claimed ==> ProgressAll(cs, ev)[i] == cs[i]
      ensures ProgressAll(cs, ev)[i].progress >= cs[i].progress
      ensures Consistent(cs[i]) ==> Consistent(ProgressAll(cs, ev)[i])
    {
      ProgressOneSpec(cs[i], ev);
    }
  }

  /** The template pool of createDailyChallenges. */
  datatype Template = Template(kind: ChallengeKind, goal: nat, reward: nat)

  const Pool: seq<Template> := [
    Template(PlaceBlocks, 25, 60),
    Template(PlaceBlocks, 45, 110),
    Template(ScoreSingle, 15, 80),
    Template(ScoreSingle, 25, 140),
    Template(PerfectTotal, 12, 90),
    Template(PerfectStreak, 3, 70)
  ]

  const DailyChallengeCount: nat := 3

  function Instantiate(t: Template): Challenge {
    Challenge(t.kind, t.goal, t.reward, 0, false, false)
  }

  /** Challenges are told apart by kind and goal. */
  function TemplateKey(t: Template): (ChallengeKind, nat) { (t.kind, t.goal) }
  function ChallengeKey(c: Challenge): (ChallengeKind, nat) { (c.kind, c.goal) }

  ghost function PickedKeys(picks: seq<nat>): set<(ChallengeKind, nat)>
    requires forall k :: 0 <= k < |picks| ==> picks[k] < |Pool|
  {
    set k | 0 <= k < |picks| :: TemplateKey(Pool[picks[k]])
  }

  ghost function ItemKeys(items: seq<Challenge>): set<(ChallengeKind, nat)> {
    set i | 0 <= i < |items| :: ChallengeKey(items[i])
  }

  /** The selection of createDailyChallenges continued from the challenges
      already chosen (`items`) with the remaining picks: the next pick's template
      is taken unless its kind and goal were taken already, until there are three. */
  ghost function SelectFrom(picks: seq<nat>, items: seq<Challenge>): seq<Challenge>
    requires forall k :: 0 <= k < |picks| ==> picks[k] < |Pool|
    decreases |picks|
  {
    if |items| >= DailyChallengeCount || picks == [] then items
    else
      var c := Instantiate(Pool[picks[0]]);
      if ChallengeKey(c) in ItemKeys(items) then SelectFrom(picks[1..], items)
      else SelectFrom(picks[1..], items + [c])
  }

  /** The challenges of the day for the pool indices `picks`. */
  ghost function DailySelection(picks: seq<nat>): seq<Challenge>
    requires forall k :: 0 <= k < |picks| ==> picks[k] < |Pool|
  {
    SelectFrom(picks, [])
  }

  /** The selection extends what was already chosen, in pick order: the
      challenges chosen so far stay first, and each later one is the fresh
      instance of some remaining pick. */
  lemma {:induction false} SelectFromExtends(picks: seq<nat>, items: seq<Challenge>)
    requires forall k :: 0 <= k < |picks| ==> picks[k] < |Pool|
    ensures |items| <= |SelectFrom(picks, items)|
    ensures SelectFrom(picks, items)[..|items|] == items
    ensures forall i :: |items| <= i < |SelectFrom(picks, items)| ==>
              exists k :: 0 <= k < |picks| && SelectFrom(picks, items)[i] == Instantiate(Pool[picks[k]])
    decreases |picks|
  {
    if |items| >= DailyChallengeCount || picks == [] {
    } else {
      var c := Instantiate(Pool[picks[0]]);
      var next := if ChallengeKey(c) in ItemKeys(items) then items else items + [c];
      SelectFromExtends(picks[1..], next);
      var r := SelectFrom(picks, items);
      assert r == SelectFrom(picks[1..], next);
      assert r[..|next|] == next;
      assert r[..|items|] == next[..|items|];
      forall i | |items| <= i < |r|
        ensures exists k :: 0 <= k < |picks| && r[i] == Instantiate(Pool[picks[k]])
      {
        if i < |next| {
          assert r[i] == next[i] == c;
          assert r[i] == Instantiate(Pool[picks[0]]);
        } else {
          var k :| 0 <= k < |picks[1..]| && r[i] == Instantiate(Pool[picks[1..][k]]);
          assert r[i] == Instantiate(Pool[picks[k + 1]]);
        }
      }
    }
  }

  /** The first pick is always taken: a day's first challenge is the template
      the generator drew first. */
  lemma FirstPickTaken(picks: seq<nat>)
    requires forall k :: 0 <= k < |picks| ==> picks[k] < |Pool|
    requires picks != []
    ensures |DailySelection(picks)| >= 1 && DailySelection(picks)[0] == Instantiate(Pool[picks[0]])
  {
    var c := Instantiate(Pool[picks[0]]);
    assert ItemKeys([]) == {};
    assert DailySelection(picks) == SelectFrom(picks[1..], [] + [c]);
    assert [] + [c] == [c];
    SelectFromExtends(picks[1..], [c]);
    assert DailySelection(picks)[..1] == [c];
  }

  /** The selection loop of createDailyChallenges, fed the pool indices that the
      seeded generator would produce (`picks`): it takes templates in pick order,
      skips any whose kind and goal were already taken, and stops at three. */
  method CreateDailyChallenges(picks: seq<nat>) returns (items: seq<Challenge>)
    requires forall k :: 0 <= k < |picks| ==> picks[k] < |Pool|
    ensures items == DailySelection(picks)
    ensures |items| <= DailyChallengeCount
    ensures forall i :: 0 <= i < |items| ==> items[i] in Fresh()
    ensures forall i, j :: 0 <= i < j < |items| ==> ChallengeKey(items[i]) != ChallengeKey(items[j])
    ensures ItemKeys(items) <= PickedKeys(picks)
    // Fewer than three only when the picks ran out: every picked template is then present.
    ensures |items| < DailyChallengeCount ==> ItemKeys(items) == PickedKeys(picks)
  {
    items := [];
    var picked: set<(ChallengeKind, nat)> := {};
    var n := 0;
    while |items| < DailyChallengeCount && n < |picks|
      invariant 0 <= n <= |picks|
      invariant |items| <= DailyChallengeCount
      invariant picked == ItemKeys(items)
      invariant forall i :: 0 <= i < |items| ==> items[i] in Fresh()
      invariant forall i, j :: 0 <= i < j < |items| ==> ChallengeKey(items[i]) != ChallengeKey(items[j])
      invariant picked == set k | 0 <= k < n :: TemplateKey(Pool[picks[k]])
      invariant SelectFrom(picks[n..], items) == DailySelection(picks)
    {
      var candidate := Pool[picks[n]];
      var key := TemplateKey(candidate);
      assert picks[n..][1..] == picks[n + 1..];
      n := n + 1;
      if key in picked {
        continue;
      }
      assert Fresh()[picks[n - 1]] == Instantiate(candidate);
      ItemKeysSnoc(items, Instantiate(candidate));
      picked := picked + {key};
      items := items + [Instantiate(candidate)];
    }
  }

  lemma ItemKeysSnoc(items: seq<Challenge>, c: Challenge)
    ensures ItemKeys(items + [c]) == ItemKeys(items) + {ChallengeKey(c)}
  {
    var extended := items + [c];
    assert extended[|items|] == c;
    forall key | key in ItemKeys(extended) ensures key in ItemKeys(items) + {ChallengeKey(c)} {
      var i :| 0 <= i < |extended| && ChallengeKey(extended[i]) == key;
      if i < |items| {
        assert extended[i] == items[i];
      }
    }
    forall key | key in ItemKeys(items) ensures key in ItemKeys(extended) {
      var i :| 0 <= i < |items| && ChallengeKey(items[i]) == key;
      assert extended[i] == items[i];
    }
  }

  /** The challenges createDailyChallenges can produce: fresh instances of the pool. */
  function Fresh(): seq<Challenge> {
    seq(|Pool|, j requires 0 <= j < |Pool| => Instantiate(Pool[j]))
  }
}

/** The save data held by the player's profile, and the handlers that change it. */
module Profile {
  import opened Config
  import opened Sequences
  import opened Economy

  datatype ShopKind = Skins | Skies

  /** A shop entry: its id and its price in stars (names and looks are display data). */
  datatype ShopItem = ShopItem(id: string, cost: nat)

  const SkinCatalogue: seq<ShopItem> := [
    ShopItem("classic", 0), ShopItem("gloss", 60), ShopItem("metal", 120), ShopItem("checker", 140),
    ShopItem("marble", 180), ShopItem("carbon", 220), ShopItem("mono", 90), ShopItem("gold", 300)
  ]

  const SkyCatalogue: seq<ShopItem> := [
    ShopItem("day", 0), ShopItem("cloudy", 80), ShopItem("dusk", 140),
    ShopItem("studio", 200), ShopItem("noir", 240), ShopItem("mint", 260)
  ]

  /** The items a shop tab lists: the skins or the skies. */
  function Catalogue(kind: ShopKind): seq<ShopItem> {
    if kind == Skins then SkinCatalogue else SkyCatalogue
  }

  /** A snapshot of every save-data field. */
  datatype SaveData = SaveData(
    bestScore: nat, stars: nat,
    ownedSkins: seq<string>, ownedSkies: seq<string>,
    selectedSkinId: string, selectedSkyId: string,
    gamesPlayed: nat, totalPlacedBlocks: nat, bestPerfectStreak: nat,
    dayKey: string, challenges: seq<Challenge>)
  {
    function Owned(kind: ShopKind): seq<string> {
      if kind == Skins then ownedSkins else ownedSkies
    }
    function WithOwned(kind: ShopKind, owned: seq<string>): SaveData {
      if kind == Skins then this.(ownedSkins := owned) else this.(ownedSkies := owned)
    }
    function WithSelected(kind: ShopKind, id: string): SaveData {
      if kind == Skins then this.(selectedSkinId := id) else this.(selectedSkyId := id)
    }
  }

  /** Owned lists hold no repeats, only owned items are equipped, and every
      challenge is consistent. */
  predicate SaveValid(d: SaveData) {
    && NoDuplicates(d.ownedSkins) && NoDuplicates(d.ownedSkies)
    && d.selectedSkinId in d.ownedSkins && d.selectedSkyId in d.ownedSkies
    && forall i :: 0 <= i < |d.challenges| ==> Consistent(d.challenges[i])
  }

  /** createDefaultSaveData, before any challenge is generated. */
  function DefaultSaveData(today: string): SaveData {
    SaveData(0, 0, ["classic"], ["day"], "classic", "day", 0, 0, 0, today, [])
  }

  /** Adding an item the list does not hold to a list without repeats leaves
      nothing for the de-duplication to remove. */
  lemma AppendNew(owned: seq<string>, id: string)
    requires NoDuplicates(owned) && id !in owned
    ensures Dedupe(owned + [id]) == owned + [id]
  {
    var extended := owned + [id];
    forall i, j | 0 <= i < j < |extended|
      ensures extended[i] != extended[j]
    {
      if j == |owned| {
        assert extended[i] == owned[i];
      }
    }
  }

  /** Equipping an owned item, or buying one not yet owned and equipping it,
      keeps the save data valid. */
  lemma ShopKeepsValid(d: SaveData, kind: ShopKind, id: string, stars: nat)
    requires SaveValid(d)
    ensures id in d.Owned(kind) ==> SaveValid(d.WithSelected(kind, id))
    ensures id !in d.Owned(kind) ==>
              SaveValid(d.(stars := stars).WithOwned(kind, d.Owned(kind) + [id]).WithSelected(kind, id))
  {
    if id !in d.Owned(kind) {
      AppendNew(d.Owned(kind), id);
    }
  }

  /** The save data after finalizePlacedBlock's bookkeeping, given the score
      and the perfect streak after the drop: one more placed block, the records
      raised to the current values, one star plus one for a perfect drop, and
      the placed-block event followed, on a perfect drop, by the perfect event. */
  function PlacementRecorded(d: SaveData, score: nat, streak: nat, wasPerfect: bool): (r: SaveData)
    ensures r.bestScore == NatMax(d.bestScore, score) && r.bestPerfectStreak == NatMax(d.bestPerfectStreak, streak)
    ensures r.totalPlacedBlocks == d.totalPlacedBlocks + 1
    ensures r.stars == d.stars + StarPerPlaced + (if wasPerfect then StarPerPerfect else 0)
    ensures r.(bestScore := d.bestScore, bestPerfectStreak := d.bestPerfectStreak, totalPlacedBlocks := d.totalPlacedBlocks,
               stars := d.stars, challenges := d.challenges) == d
    ensures r.challenges == (if wasPerfect then ProgressAll(ProgressAll(d.challenges, PlacedBlock), Perfect(streak))
                             else ProgressAll(d.challenges, PlacedBlock))
  {
    var placed := ProgressAll(d.challenges, PlacedBlock);
    d.(totalPlacedBlocks := d.totalPlacedBlocks + 1,
       bestScore := NatMax(d.bestScore, score),
       bestPerfectStreak := NatMax(d.bestPerfectStreak, streak),
       stars := d.stars + StarPerPlaced + (if wasPerfect then StarPerPerfect else 0),
       challenges := if wasPerfect then ProgressAll(placed, Perfect(streak)) else placed)
  }

  /** What a placement reports to the challenges: every open place-blocks
      challenge counts one more block, and on a perfect drop every open
      perfect-total challenge counts one more perfect drop and every open
      perfect-streak challenge reaches at least the current streak. Challenges
      of any other kind, and claimed ones, are left alone. */
  lemma {:induction false} PlacementEvents(d: SaveData, score: nat, streak: nat, wasPerfect: bool, i: nat)
    requires i < |d.challenges|
    ensures var c, r := d.challenges[i], PlacementRecorded(d, score, streak, wasPerfect).challenges[i];
            && (c.claimed ==> r == c)
            && (!c.claimed && c.kind == PlaceBlocks ==> r.progress == c.progress + 1)
            && (!c.claimed && c.kind == PerfectTotal ==> r.progress == c.progress + (if wasPerfect then 1 else 0))
            && (!c.claimed && c.kind == PerfectStreak && wasPerfect ==> r.progress == NatMax(c.progress, streak))
            && (!c.claimed && c.kind == PerfectStreak && !wasPerfect ==> r == c)
            && (c.kind == ScoreSingle ==> r == c)
  {
    var c := d.challenges[i];
    var placed := ProgressAll(d.challenges, PlacedBlock);
    ProgressOneSpec(c, PlacedBlock);
    assert placed[i] == ProgressOne(c, PlacedBlock);
    if wasPerfect {
      ProgressOneSpec(placed[i], Perfect(streak));
      assert ProgressAll(placed, Perfect(streak))[i] == ProgressOne(placed[i], Perfect(streak));
    }
  }

  /** The save data after a placement: the bookkeeping of RecordPlacement plus
      the growth award when the block grew. */
  function AfterPlacement(d: SaveData, score: nat, streak: nat, wasPerfect: bool, grew: bool): (r: SaveData)
    ensures r.bestScore == NatMax(d.bestScore, score) && r.bestPerfectStreak == NatMax(d.bestPerfectStreak, streak)
    ensures r.totalPlacedBlocks == d.totalPlacedBlocks + 1
    ensures r.stars == d.stars + 1 + (if wasPerfect then 1 else 0) + (if grew then 2 else 0)
    ensures r.challenges == PlacementRecorded(d, score, streak, wasPerfect).challenges
    ensures r.(bestScore := d.bestScore, bestPerfectStreak := d.bestPerfectStreak, totalPlacedBlocks := d.totalPlacedBlocks,
               stars := d.stars, challenges := d.challenges) == d
  {
    var recorded := PlacementRecorded(d, score, streak, wasPerfect);
    if grew then recorded.(stars := recorded.stars + StarPerPerfectGrow) else recorded
  }


  class Profile {
    var bestScore: nat
    var stars: nat
    var ownedSkins: seq<string>
    var ownedSkies: seq<string>
    var selectedSkinId: string
    var selectedSkyId: string
    var gamesPlayed: nat
    var totalPlacedBlocks: nat
    var bestPerfectStreak: nat
    var dayKey: string
    var challenges: seq<Challenge>

    function Data(): SaveData
      reads this
    {
      SaveData(bestScore, stars, ownedSkins, ownedSkies, selectedSkinId, selectedSkyId,
               gamesPlayed, totalPlacedBlocks, bestPerfectStreak, dayKey, challenges)
    }

    ghost predicate Valid()
      reads this
    {
      SaveValid(Data())
    }

    /** The default save data with today's challenges installed. */
    constructor(today: string, daily: seq<Challenge>)
      requires forall i :: 0 <= i < |daily| ==> Consistent(daily[i])
      ensures Valid()
      ensures Data() == DefaultSaveData(today).(challenges := daily)
    {
      bestScore, stars := 0, 0;
      ownedSkins, ownedSkies := ["classic"], ["day"];
      selectedSkinId, selectedSkyId := "classic", "day";
      gamesPlayed, totalPlacedBlocks, bestPerfectStreak := 0, 0, 0;
      dayKey := today;
      challenges := daily;
    }

    /** awardStars: a positive amount is added, anything else is ignored. */
    method AwardStars(amount: int)
      requires Valid()
      modifies this
      ensures Valid()
      ensures Data() == old(Data()).(stars := old(stars) + (if amount > 0 then amount else 0))
    {
      if amount <= 0 {
        return;
      }
      stars := stars + amount;
    }

    /** updateChallengeProgress: every unclaimed challenge the event concerns makes
        progress and has its completion recomputed; `changed` tells whether some
        challenge became complete. */
    method UpdateChallengeProgress(ev: Event) returns (changed: bool)
      requires Valid()
      modifies this
      ensures Valid()
      ensures Data() == old(Data()).(challenges := ProgressAll(old(challenges), ev))
      ensures changed <==> exists k :: 0 <= k < |challenges| && !old(challenges)[k].completed && challenges[k].completed
    {
      var items := challenges;
      changed := false;
      var i := 0;
      while i < |items|
        invariant 0 <= i <= |items| == |challenges|
        invariant forall k :: 0 <= k < i ==> items[k] == ProgressOne(challenges[k], ev)
        invariant forall k :: i <= k < |items| ==> items[k] == challenges[k]
        invariant changed <==> exists k :: 0 <= k < i && !challenges[k].completed && items[k].completed
      {
        var ch := items[i];
        if ch.claimed {
          i := i + 1;
          continue;
        }
        var next := ch;
        match ev {
          case PlacedBlock =>
            if ch.kind == PlaceBlocks {
              next := Completion(ch.(progress := ch.progress + 1));
            }
          case Perfect(streak) =>
            if ch.kind == PerfectTotal {
              next := Completion(ch.(progress := ch.progress + 1));
            }
            if ch.kind == PerfectStreak {
              next := Completion(ch.(progress := NatMax(ch.progress, streak)));
            }
          case RunEnd(score) =>
            if ch.kind == ScoreSingle {
              next := Completion(ch.(progress := NatMax(ch.progress, score)));
            }
        }
        if !ch.completed && next.completed {
          changed := true;
        }
        items := items[i := next];
        i := i + 1;
      }
      ProgressAllSpec(challenges, ev);
      challenges := items;
    }

    /** The save-data part of finalizePlacedBlock. */
    method RecordPlacement(score: nat, streak: nat, wasPerfect: bool)
      requires Valid()
      modifies this
      ensures Valid()
      ensures Data() == PlacementRecorded(old(Data()), score, streak, wasPerfect)
    {
      totalPlacedBlocks := totalPlacedBlocks + 1;
      bestScore := NatMax(bestScore, score);
      bestPerfectStreak := NatMax(bestPerfectStreak, streak);
      AwardStars(StarPerPlaced + (if wasPerfect then StarPerPerfect else 0));
      var _ := UpdateChallengeProgress(PlacedBlock);
      if wasPerfect {
        var _ := UpdateChallengeProgress(Perfect(streak));
      }
    }

    /** The save-data part of finalizePlacedBlock: the placement is recorded,
        and the growth award is added when the block grew. */
    method RecordDrop(score: nat, streak: nat, wasPerfect: bool, grew: bool)
      requires Valid()
      modifies this
      ensures Valid()
      ensures Data() == AfterPlacement(old(Data()), score, streak, wasPerfect, grew)
    {
      RecordPlacement(score, streak, wasPerfect);
      if grew {
        AwardStars(StarPerPerfectGrow);
      }
    }

    /** The click handler of a shop card (one card per catalogue item): an item
        not yet owned is bought when the stars suffice (and the click does
        nothing otherwise); an owned or just bought item is equipped. */
    method BuyOrEquip(kind: ShopKind, item: ShopItem) returns (equipped: bool)
      requires Valid() && item in Catalogue(kind)
      modifies this
      ensures Valid()
      ensures equipped <==> item.id in old(Data()).Owned(kind) || old(stars) >= item.cost
      ensures !equipped ==> Data() == old(Data())
      ensures equipped && item.id in old(Data()).Owned(kind) ==>
                Data() == old(Data()).WithSelected(kind, item.id)
      ensures equipped && item.id !in old(Data()).Owned(kind) ==>
                stars + item.cost == old(stars)
                && Data() == old(Data()).(stars := stars)
                               .WithOwned(kind, old(Data()).Owned(kind) + [item.id])
                               .WithSelected(kind, item.id)
    {
      var owned := Data().Owned(kind);
      if item.id !in owned {
        if stars < item.cost {
          return false;
        }
        stars := stars - item.cost;
        var merged := Dedupe(owned + [item.id]);
        AppendNew(owned, item.id);
        SetOwned(kind, merged);
      }
      SetSelected(kind, item.id);
      equipped := true;
      ShopKeepsValid(old(Data()), kind, item.id, stars);
    }

    /** `saveData[ownedKey] = owned`. */
    method SetOwned(kind: ShopKind, owned: seq<string>)
      modifies this
      ensures Data() == old(Data()).WithOwned(kind, owned)
    {
      if kind == Skins {
        ownedSkins := owned;
      } else {
        ownedSkies := owned;
      }
    }

    /** `saveData[selectedKey] = id`. */
    method SetSelected(kind: ShopKind, id: string)
      modifies this
      ensures Data() == old(Data()).WithSelected(kind, id)
    {
      if kind == Skins {
        selectedSkinId := id;
      } else {
        selectedSkyId := id;
      }
    }

    /** The challenge's claim handler: a completed, unclaimed challenge is marked
        claimed and its reward is added; any other click does nothing. */
    method Claim(i: nat) returns (claimedNow: bool)
      requires Valid() && i < |challenges|
      modifies this
      ensures Valid()
      ensures claimedNow <==> old(challenges[i].completed) && !old(challenges[i].claimed)
      ensures claimedNow ==>
                Data() == old(Data()).(stars := old(stars) + old(challenges[i].reward),
                                       challenges := old(challenges)[i := old(challenges[i]).(claimed := true)])
      ensures !claimedNow ==> Data() == old(Data())
      ensures old(challenges[i].completed) ==> challenges[i].claimed
    {
      var ch := challenges[i];
      if !ch.completed || ch.claimed {
        return false;
      }
      challenges := challenges[i := ch.(claimed := true)];
      stars := stars + ch.reward;
      claimedNow := true;
    }
  }
}
