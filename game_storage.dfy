/**
 * The collection and economy store: stats cached per name, the owned creatures, the coin
 * balance, the item inventory and the battle team, each kept under its own local-storage key
 * (`dc_digimon_stats_v1`, `dc_owned_digimons_v1`, `dc_coins_v1`, `dc_items_v1`,
 * `dc_battle_team_v1`).
 */
module GameStorage {
  import opened Wrappers
  import opened JsNumbers
  import opened Collections
  import opened Creatures
  import GalleryScript

  /** The balance a player starts with. */
  const InitialCoins: int := 1000

  /** The stats given to a creature without a name. */
  const FallbackStats: Stats := Stats(10, 10, 10)

  /** An owned creature or a battle-team member, stripped to `{name, img, level}`. */
  datatype Entry = Entry(name: string, img: string, level: string)

  function EntryOf(d: Digimon): (e: Entry)
    ensures e.name == d.name && e.img == d.img && e.level == d.level
  {
    Entry(d.name, d.img, d.level)
  }

  // ---------- stat generation, storage variant ----------

  /** `levelWeight[level || 'Rookie'] || 0.95`: a missing level weighs as a Rookie. */
  function StoreWeight(level: string): (w: nat)
    ensures level == "" ==> w == LevelWeights["Rookie"]
    ensures level in LevelWeights ==> w == LevelWeights[level]
    ensures level != "" && level !in LevelWeights ==> w == DefaultWeight
  {
    var l := if level == "" then "Rookie" else level;
    if l in LevelWeights then LevelWeights[l] else DefaultWeight
  }

  /** The two variants weigh every level alike except a missing one: 0.9 here, 0.95 there. */
  lemma WeightVariantsDiffer(level: string)
    ensures level != "" ==> StoreWeight(level) == GalleryScript.GalleryWeight(level)
    ensures StoreWeight("") == 90 && GalleryScript.GalleryWeight("") == 95
  {
  }

  /** `45 + abs % 20`. */
  function StoreBase(abs: int): (b: int)
    requires abs >= 0
    ensures 45 <= b <= 64
  {
    45 + JsRem(abs, 20)
  }

  /** The store's stats for a name and a level: every component lies in 0..100. */
  function StoreStats(name: string, level: string): (s: Stats)
    ensures InRange(s)
  {
    var abs := JsAbs(NameHash(name));
    Derive(abs, StoreBase(abs), StoreWeight(level))
  }

  /** The two generators disagree on the very same creature (the empty name hashes to 0). */
  lemma VariantsDisagree()
    ensures GalleryScript.GalleryStats("", "Rookie") == Stats(27, 27, 27)
    ensures StoreStats("", "Rookie") == Stats(41, 41, 41)
  {
    assert NameHash("") == 0 && JsAbs(0) == 0;
    assert AtkTerm(0) == 0 && DefTerm(0) == 0 && EspTerm(0) == 0;
    assert GalleryScript.GalleryBase(0) == 30 && GalleryScript.GalleryWeight("Rookie") == 90;
    assert RoundScaled(30, 90) == 27;
    assert StoreBase(0) == 45 && StoreWeight("Rookie") == 90;
    assert RoundScaled(45, 90) == 41;
  }

  /** `generateStats`: depends on the creature's name and level and on nothing else. */
  method GenerateStats(d: Digimon) returns (s: Stats)
    ensures s == StoreStats(d.name, d.level)
    ensures InRange(s)
  {
    var level := if d.level == "" then "Rookie" else d.level;
    var weight := if level in LevelWeights then LevelWeights[level] else DefaultWeight;
    var hash := HashOf(d.name);
    var abs := JsAbs(hash);
    var base := 45 + JsRem(abs, 20);
    var atk := Min(100, RoundScaled(base + JsRem(abs, 25), weight));
    var def := Min(100, RoundScaled(base + JsRem(ShiftRight(abs, 3), 25), weight));
    var esp := Min(100, RoundScaled(base + JsRem(ShiftRight(abs, 6), 25), weight));
    assert base == StoreBase(abs) && weight == StoreWeight(d.level);
    assert atk == Component(base, AtkTerm(abs), weight);
    assert def == Component(base, DefTerm(abs), weight);
    assert esp == Component(base, EspTerm(abs), weight);
    s := Stats(atk, def, esp);
  }

  // ---------- coins ----------

  /** `Math.max(0, Number(value) || 0)`; `None` is a value that is not a number. */
  function CoinsToStore(value: Option<int>): (r: int)
    ensures r >= 0
    ensures value.Some? && value.value >= 0 ==> r == value.value
    ensures value.None? || value.value <= 0 ==> r == 0
  {
    Max(0, value.GetOr(0))
  }

  // ---------- owned creatures ----------

  predicate UniqueNames(s: seq<Entry>) {
    forall i, j :: 0 <= i < j < |s| ==> s[i].name != s[j].name
  }

  predicate Owns(s: seq<Entry>, name: string) {
    exists i :: 0 <= i < |s| && s[i].name == name
  }

  /** `owned.filter(d => d.name !== name)`. */
  function WithoutName(s: seq<Entry>, name: string): (r: seq<Entry>)
    ensures IsSubsequence(r, s)
    ensures forall i :: 0 <= i < |r| ==> r[i] in s && r[i].name != name
    ensures forall i :: 0 <= i < |s| && s[i].name != name ==> s[i] in r
    ensures forall e :: multiset(r)[e] == if e.name != name then multiset(s)[e] else 0
  {
    FilterIsSubsequence(s, (e: Entry) => e.name != name);
    assert forall e :: multiset(Filter(s, (e: Entry) => e.name != name))[e] == if e.name != name then multiset(s)[e] else 0 by {
      forall e {
        FilterCount(s, (e: Entry) => e.name != name, e);
      }
    }
    Filter(s, (e: Entry) => e.name != name)
  }

  /** Removing by name keeps the owned names unique. */
  lemma {:induction false} WithoutNameKeepsUnique(s: seq<Entry>, name: string)
    requires UniqueNames(s)
    ensures UniqueNames(WithoutName(s, name))
  {
    if s != [] {
      WithoutNameKeepsUnique(s[1..], name);
      var rest := WithoutName(s[1..], name);
      assert forall k :: 0 <= k < |rest| ==> rest[k] in s[1..];
      assert forall k :: 0 <= k < |rest| ==> rest[k].name != s[0].name;
    }
  }

  // ---------- battle team ----------

  /** `(team || []).slice(0, 2).map(d => ({name, img, level}))`. */
  function CleanTeam(team: Option<seq<Digimon>>): (r: seq<Entry>)
    ensures |r| <= 2
    ensures team.None? ==> r == []
    ensures team.Some? ==> |r| == Min(2, |team.value|)
    ensures team.Some? ==> forall i :: 0 <= i < |r| ==> r[i] == EntryOf(team.value[i])
  {
    var t := team.GetOr([]);
    var k := Min(2, |t|);
    seq(k, i requires 0 <= i < k => EntryOf(t[i]))
  }

  /** A team of two or more keeps its first two members, each reduced to name, img and level. */
  lemma CleanTeamKeepsFirstTwo(t: seq<Digimon>)
    requires |t| >= 2
    ensures CleanTeam(Some(t)) == [Entry(t[0].name, t[0].img, t[0].level), Entry(t[1].name, t[1].img, t[1].level)]
  {
  }

  // ---------- the store ----------

  class Storage<Item> {
    /** `dc_digimon_stats_v1`: stats per name, written once per name. */
    var stats: map<string, Stats>
    /** `dc_owned_digimons_v1`. */
    var owned: seq<Entry>
    /** `dc_coins_v1`; `None` while the key is absent. */
    var coins: Option<int>
    /** `dc_items_v1`. */
    var items: seq<Item>
    /** `dc_battle_team_v1`. */
    var battle: seq<Entry>

    /** What the operations keep true of the stored records. */
    ghost predicate Valid()
      reads this
    {
      && (coins.Some? ==> coins.value >= 0)
      && UniqueNames(owned)
      && |battle| <= 2
      && forall n :: n in stats ==> n != "" && InRange(stats[n])
    }

    /** Empty local storage. */
    constructor()
      ensures Valid()
      ensures stats == map[] && owned == [] && coins == None && items == [] && battle == []
    {
      stats := map[];
      owned := [];
      coins := None;
      items := [];
      battle := [];
    }

    /** `getCoins`: the stored balance; on first use 1000, which is then stored. */
    method GetCoins() returns (c: int)
      requires Valid()
      modifies this`coins
      ensures Valid()
      ensures c == old(coins).GetOr(InitialCoins) && c >= 0
      ensures coins == Some(c)
    {
      if coins.None? {
        coins := Some(InitialCoins);
      }
      c := coins.value;
    }

    /** `setCoins`: stores the value floored at 0, and 0 for a value that is not a number. */
    method SetCoins(value: Option<int>)
      requires Valid()
      modifies this`coins
      ensures Valid()
      ensures coins == Some(CoinsToStore(value))
    {
      coins := Some(CoinsToStore(value));
    }

    /** `addCoins`: adds `delta` to the balance, floors the sum at 0, stores and returns it. */
    method AddCoins(delta: int) returns (next: int)
      requires Valid()
      modifies this`coins
      ensures Valid()
      ensures next == Max(0, old(coins).GetOr(InitialCoins) + delta)
      ensures coins == Some(next)
    {
      var current := GetCoins();
      next := Max(0, current + delta);
      SetCoins(Some(next));
    }

    /**
     * `getStats`: the fallback triple for a nameless creature; otherwise the stats stored
     * under the name, generating and storing them the first time.
     */
    method GetStats(d: Digimon) returns (s: Stats)
      requires Valid()
      modifies this`stats
      ensures Valid()
      ensures d.name == "" ==> s == FallbackStats && stats == old(stats)
      ensures d.name != "" && d.name in old(stats) ==> s == old(stats)[d.name] && stats == old(stats)
      ensures d.name != "" && d.name !in old(stats) ==>
        s == StoreStats(d.name, d.level) && stats == old(stats)[d.name := s]
      ensures d.name != "" ==> d.name in stats && stats[d.name] == s
      ensures InRange(s)
      ensures Extends(old(stats), stats)
    {
      if d.name == "" {
        return FallbackStats;
      }
      if d.name in stats {
        return stats[d.name];
      }
      s := GenerateStats(d);
      stats := stats[d.name := s];
    }

    /** `getOwned`. */
    method GetOwned() returns (r: seq<Entry>)
      ensures r == owned
    {
      r := owned;
    }

    /**
     * `addOwned`: nothing without a creature or a name; otherwise adds `{name, img, level}`
     * unless that name is owned already, and makes sure the name has stats.
     */
    method AddOwned(d: Option<Digimon>)
      requires Valid()
      modifies this`owned, this`stats
      ensures Valid()
      ensures d.None? || d.value.name == "" ==> owned == old(owned) && stats == old(stats)
      ensures d.Some? && d.value.name != "" ==>
        owned == (if Owns(old(owned), d.value.name) then old(owned) else old(owned) + [EntryOf(d.value)])
      ensures d.Some? && d.value.name != "" ==>
        stats == (if d.value.name in old(stats) then old(stats)
                  else old(stats)[d.value.name := StoreStats(d.value.name, d.value.level)])
      ensures Extends(old(stats), stats)
    {
      if d.None? || d.value.name == "" {
        return;
      }
      var digimon := d.value;
      if !Owns(owned, digimon.name) {
        owned := owned + [EntryOf(digimon)];
      }
      var _ := GetStats(digimon);
    }

    /** `removeOwned`: drops every entry with that name, keeping the others in order. */
    method RemoveOwned(name: string)
      requires Valid()
      modifies this`owned
      ensures Valid()
      ensures owned == WithoutName(old(owned), name)
      ensures !Owns(owned, name)
    {
      WithoutNameKeepsUnique(owned, name);
      owned := WithoutName(owned, name);
    }

    /** `getItems`. */
    method GetItems() returns (r: seq<Item>)
      ensures r == items
    {
      r := items;
    }

    /** `addItem`: appends, duplicates included. */
    method AddItem(item: Item)
      requires Valid()
      modifies this`items
      ensures Valid()
      ensures items == old(items) + [item]
    {
      items := items + [item];
    }

    /** `getBattleTeam`. */
    method GetBattleTeam() returns (r: seq<Entry>)
      ensures r == battle
    {
      r := battle;
    }

    /** `setBattleTeam`: replaces the team by the first two members, stripped; null clears it. */
    method SetBattleTeam(team: Option<seq<Digimon>>)
      requires Valid()
      modifies this`battle
      ensures Valid()
      ensures battle == CleanTeam(team)
    {
      battle := CleanTeam(team);
    }

    /** `clearBattleTeam`. */
    method ClearBattleTeam()
      requires Valid()
      modifies this`battle
      ensures Valid()
      ensures battle == []
    {
      battle := [];
    }
  }

  /** From empty storage: 1000 coins, then adding -2000 gives 0, and setting -5 stores 0. */
  method CoinsScenario() returns (initial: int, afterLoss: int, afterNegativeSet: int)
    ensures initial == 1000 && afterLoss == 0 && afterNegativeSet == 0
  {
    var store := new Storage<string>();
    initial := store.GetCoins();
    afterLoss := store.AddCoins(-2000);
    store.SetCoins(Some(-5));
    afterNegativeSet := store.GetCoins();
  }

  /**
   * From empty storage, a second lookup of the same name returns the first lookup's stats,
   * even when the creature's level has changed in between.
   */
  method StatsKeyedByName(d: Digimon, laterLevel: string) returns (first: Stats, second: Stats)
    ensures first == (if d.name == "" then FallbackStats else StoreStats(d.name, d.level))
    ensures second == first
  {
    var store := new Storage<string>();
    first := store.GetStats(d);
    second := store.GetStats(d.(level := laterLevel));
  }
}
