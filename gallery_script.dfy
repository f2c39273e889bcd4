/**
 * The gallery page: its own stat generator and stat cache (the `digimon_stats_v1` entry of
 * local storage), the choice of where a card's stats come from, the selection of at most two
 * creatures, the "train" button's enabling condition, the search/level filter and HTML escaping.
 */
module GalleryScript {
  import opened Wrappers
  import opened JsNumbers
  import opened JsStrings
  import opened Collections
  import opened Creatures

  // ---------- stat generation, gallery variant ----------

  /** `levelWeight[level] || 0.95`: a missing or unknown level weighs 0.95. */
  function GalleryWeight(level: string): (w: nat)
    ensures level in LevelWeights ==> w == LevelWeights[level]
    ensures level !in LevelWeights ==> w == DefaultWeight
  {
    if level in LevelWeights then LevelWeights[level] else DefaultWeight
  }

  /** `30 + abs % 40`. */
  function GalleryBase(abs: int): (b: int)
    requires abs >= 0
    ensures 30 <= b <= 69
  {
    30 + JsRem(abs, 40)
  }

  /** The gallery's stats for a name and a level: every component lies in 0..100. */
  function GalleryStats(name: string, level: string): (s: Stats)
    ensures InRange(s)
  {
    var abs := JsAbs(NameHash(name));
    Derive(abs, GalleryBase(abs), GalleryWeight(level))
  }

  /** `generateStats`: depends on the creature's name and level and on nothing else. */
  method GenerateStats(d: Digimon) returns (s: Stats)
    ensures s == GalleryStats(d.name, d.level)
    ensures InRange(s)
  {
    var hash := HashOf(d.name);
    var abs := JsAbs(hash);
    var base := 30 + JsRem(abs, 40);
    var weight := if d.level in LevelWeights then LevelWeights[d.level] else DefaultWeight;
    var atk := Min(100, RoundScaled(base + JsRem(abs, 25), weight));
    var def := Min(100, RoundScaled(base + JsRem(ShiftRight(abs, 3), 25), weight));
    var esp := Min(100, RoundScaled(base + JsRem(ShiftRight(abs, 6), 25), weight));
    assert base == GalleryBase(abs) && weight == GalleryWeight(d.level);
    assert atk == Component(base, AtkTerm(abs), weight);
    assert def == Component(base, DefTerm(abs), weight);
    assert esp == Component(base, EspTerm(abs), weight);
    s := Stats(atk, def, esp);
  }

  // ---------- selection ----------

  /** An entry of the selection: a creature together with the stats its card showed. */
  datatype Pick = Pick(name: string, img: string, stats: Stats, level: string)

  /** `findIndex(s => s.name === name)`: the first index holding `name`, or -1. */
  function FirstIndex(s: seq<Pick>, name: string): (r: int)
    ensures -1 <= r < |s|
    ensures r == -1 <==> forall i :: 0 <= i < |s| ==> s[i].name != name
    ensures r >= 0 ==> s[r].name == name && forall j :: 0 <= j < r ==> s[j].name != name
  {
    if s == [] then -1
    else if s[0].name == name then 0
    else
      var k := FirstIndex(s[1..], name);
      if k == -1 then -1 else k + 1
  }

  /** The selection after one click on `p` (the value `Gallery.Toggle` leaves in `selected`). */
  function Toggled(s: seq<Pick>, p: Pick): (r: seq<Pick>)
    ensures |r| <= |s| + 1
    ensures forall i :: 0 <= i < |r| ==> r[i] in s || r[i] == p
    ensures ValidSelection(s) ==> (HasName(r, p.name) <==> !HasName(s, p.name))
  {
    var idx := FirstIndex(s, p.name);
    if idx != -1 then s[..idx] + s[idx + 1..]
    else
      var r := (if |s| >= 2 then s[1..] else s) + [p];
      assert r[|r| - 1] == p;
      r
  }

  predicate HasName(s: seq<Pick>, name: string) {
    exists i :: 0 <= i < |s| && s[i].name == name
  }

  /** At most two entries, no name twice. */
  predicate ValidSelection(s: seq<Pick>) {
    |s| <= 2 && forall i, j :: 0 <= i < j < |s| ==> s[i].name != s[j].name
  }

  /** A click on a selected creature removes its entry; the others keep their order. */
  lemma ToggleDeselects(s: seq<Pick>, p: Pick, i: int)
    requires ValidSelection(s)
    requires 0 <= i < |s| && s[i].name == p.name
    ensures Toggled(s, p) == s[..i] + s[i + 1..]
    ensures |Toggled(s, p)| == |s| - 1
    ensures !HasName(Toggled(s, p), p.name)
  {
  }

  /** A click on a new creature while two are selected drops the oldest and appends. */
  lemma ToggleEvictsOldest(s: seq<Pick>, p: Pick)
    requires |s| == 2 && !HasName(s, p.name)
    ensures Toggled(s, p) == [s[1], p]
  {
  }

  /** A click on a new creature while fewer than two are selected appends it. */
  lemma ToggleAppends(s: seq<Pick>, p: Pick)
    requires |s| < 2 && !HasName(s, p.name)
    ensures Toggled(s, p) == s + [p]
  {
  }

  /** Every click keeps the selection at most two long and free of repeated names. */
  lemma ToggleKeepsValid(s: seq<Pick>, p: Pick)
    requires ValidSelection(s)
    ensures ValidSelection(Toggled(s, p))
  {
  }

  /** Below capacity, a second click on a new creature undoes the first. */
  lemma ToggleTwiceRestores(s: seq<Pick>, p: Pick)
    requires |s| < 2 && !HasName(s, p.name)
    ensures Toggled(Toggled(s, p), p) == s
  {
    ToggleAppends(s, p);
    var t := s + [p];
    assert FirstIndex(t, p.name) == |s|;
    assert t[..|s|] + t[|s| + 1..] == s;
  }

  /** At capacity it does not: the evicted entry stays gone. */
  lemma ToggleTwiceAtCapacity(s: seq<Pick>, p: Pick)
    requires ValidSelection(s) && |s| == 2 && !HasName(s, p.name)
    ensures Toggled(Toggled(s, p), p) == [s[1]]
  {
    ToggleEvictsOldest(s, p);
    var t := [s[1], p];
    assert FirstIndex(t, p.name) == 1;
  }

  /** `/in[- ]?training/i.test(level)`. */
  predicate InTrainingLevel(level: string): (r: bool)
    ensures r ==> |level| >= 10
  {
    var l := Lower(level);
    Includes(l, "intraining") || Includes(l, "in-training") || Includes(l, "in training")
  }

  /** The "train" button is enabled: one creature selected, with an In-Training level. */
  predicate TrainEnabled(s: seq<Pick>): (r: bool)
    ensures r <==> |s| == 1 && InTrainingLevel(s[0].level)
  {
    |s| == 1 && s[0].level != "" && InTrainingLevel(s[0].level)
  }

  /** From an empty selection, one click enables the button exactly for an In-Training level. */
  lemma TrainAfterOneClick(p: Pick)
    ensures TrainEnabled(Toggled([], p)) <==> p.level != "" && InTrainingLevel(p.level)
  {
  }

  /** A click that brings the selection to two entries disables the button. */
  lemma TrainOffWithTwo(s: seq<Pick>, p: Pick)
    requires |s| == 1 && !HasName(s, p.name)
    ensures !TrainEnabled(Toggled(s, p))
  {
  }

  /** Lower-casing twice changes nothing. */
  lemma LowerIdempotent(s: string)
    ensures Lower(Lower(s)) == Lower(s)
  {
  }

  /** The In-Training match ignores case. */
  lemma TrainMatchIgnoresCase(level: string)
    ensures InTrainingLevel(Lower(level)) == InTrainingLevel(level)
  {
    LowerIdempotent(level);
  }

  /** The `i` flag: an upper-case spelling enables the button too. */
  lemma InTrainingUpperCase()
    ensures InTrainingLevel("IN TRAINING")
  {
    var a := Lower("IN TRAINING");
    assert forall i :: 0 <= i < 11 ==> a[i] == "in training"[i];
    assert OccursAt(a, "in training", 0);
  }

  lemma NotIncludedInShorter(s: string, q: string)
    requires |q| > |s|
    ensures !Includes(s, q)
  {
  }

  lemma InTrainingWithSpace()
    ensures InTrainingLevel("In Training")
  {
    var a := Lower("In Training");
    assert AsciiLowerChar('I') == 'i' && AsciiLowerChar('T') == 't';
    assert forall i :: 0 <= i < 11 ==> a[i] == "in training"[i];
    assert OccursAt(a, "in training", 0);
  }

  lemma InTrainingWithHyphen()
    ensures InTrainingLevel("In-Training")
  {
    var b := Lower("In-Training");
    assert AsciiLowerChar('I') == 'i' && AsciiLowerChar('T') == 't';
    assert forall i :: 0 <= i < 11 ==> b[i] == "in-training"[i];
    assert OccursAt(b, "in-training", 0);
  }

  /** Of the table's levels, exactly those weighted 0.75 enable the button. */
  lemma TrainLevelsAreTheInTrainingWeights(level: string)
    requires level in LevelWeights
    ensures InTrainingLevel(level) <==> LevelWeights[level] == 75
  {
    if LevelWeights[level] == 75 {
      assert level == "In Training" || level == "In-Training";
      InTrainingWithSpace();
      InTrainingWithHyphen();
    } else {
      assert |level| < 10;
      NotIncludedInShorter(Lower(level), "intraining");
      NotIncludedInShorter(Lower(level), "in-training");
      NotIncludedInShorter(Lower(level), "in training");
    }
  }

  // ---------- search and level filter ----------

  /** The filter's condition, given the trimmed, lower-cased query `q` and the chosen level. */
  predicate Matches(d: Digimon, q: string, lvl: string): (r: bool)
    ensures q == "" && lvl == "" ==> r
    ensures r && q != "" ==> |q| <= |d.name|
    ensures r && lvl != "" ==> |d.level| == |lvl|
  {
    (q == "" || Includes(Lower(d.name), q)) && (lvl == "" || Lower(d.level) == Lower(lvl))
  }

  /** `applyFilters`: the creatures that match, in their original order. */
  function ApplyFilters(ds: seq<Digimon>, query: string, lvl: string): (r: seq<Digimon>)
    ensures IsSubsequence(r, ds)
    ensures forall i :: 0 <= i < |r| ==> r[i] in ds && Matches(r[i], Lower(Trim(query)), lvl)
    ensures forall i :: 0 <= i < |ds| && Matches(ds[i], Lower(Trim(query)), lvl) ==> ds[i] in r
    ensures forall d :: multiset(r)[d] == if Matches(d, Lower(Trim(query)), lvl) then multiset(ds)[d] else 0
  {
    var q := Lower(Trim(query));
    FilterIsSubsequence(ds, d => Matches(d, q, lvl));
    assert forall d :: multiset(Filter(ds, d => Matches(d, q, lvl)))[d] == if Matches(d, q, lvl) then multiset(ds)[d] else 0 by {
      forall d {
        FilterCount(ds, d => Matches(d, q, lvl), d);
      }
    }
    Filter(ds, d => Matches(d, q, lvl))
  }

  /** An empty (or all-space) query with no level chosen keeps the whole list. */
  lemma BlankFiltersKeepAll(ds: seq<Digimon>, query: string)
    requires forall k :: 0 <= k < |query| ==> IsJsSpace(query[k])
    ensures ApplyFilters(ds, query, "") == ds
  {
    var q := Lower(Trim(query));
    assert q == "";
    FilterKeepsAll(ds, d => Matches(d, q, ""));
  }

  // ---------- HTML escaping ----------

  /** The replacement of one character: itself, or an entity from `&` to `;` for the five markup characters. */
  function EscapeChar(c: char): (r: string)
    ensures |r| == 1 <==> c !in "&<>\"'"
    ensures |r| == 1 ==> r[0] == c
    ensures |r| > 1 ==> r[0] == '&' && r[|r| - 1] == ';'
  {
    match c
    case '&' => "&amp;"
    case '<' => "&lt;"
    case '>' => "&gt;"
    case '"' => "&quot;"
    case '\'' => "&#39;"
    case _ => [c]
  }

  /** `escapeHtml`: no markup character survives in the result. */
  function EscapeHtml(s: string): (r: string)
    ensures |r| >= |s|
    ensures forall i :: 0 <= i < |r| ==> r[i] != '<' && r[i] != '>' && r[i] != '"' && r[i] != '\''
  {
    if s == [] then [] else EscapeChar(s[0]) + EscapeHtml(s[1..])
  }

  /** The entity `s` starts with, as the character it stands for and its length. */
  function EntityAt(s: string): (r: Option<(char, nat)>)
    ensures r.Some? ==> 4 <= r.value.1 <= |s|
  {
    if |s| >= 5 && s[..5] == "&amp;" then Some(('&', 5))
    else if |s| >= 4 && s[..4] == "&lt;" then Some(('<', 4))
    else if |s| >= 4 && s[..4] == "&gt;" then Some(('>', 4))
    else if |s| >= 6 && s[..6] == "&quot;" then Some(('"', 6))
    else if |s| >= 5 && s[..5] == "&#39;" then Some(('\'', 5))
    else None
  }

  /** Decodes the five entities `escapeHtml` produces; anything else is kept as it is. */
  function UnescapeHtml(s: string): string {
    if s == [] then []
    else if s[0] == '&' && EntityAt(s).Some? then
      [EntityAt(s).value.0] + UnescapeHtml(s[EntityAt(s).value.1..])
    else [s[0]] + UnescapeHtml(s[1..])
  }

  /** Decoding the escape of one character gives that character back. */
  lemma UnescapeOneChar(c: char, t: string)
    ensures UnescapeHtml(EscapeChar(c) + t) == [c] + UnescapeHtml(t)
  {
    var e := EscapeChar(c) + t;
    if c == '&' {
      assert e[..5] == "&amp;" && e[5..] == t;
    } else if c == '<' {
      assert e[1] == 'l';
      assert e[..4] == "&lt;" && e[4..] == t;
    } else if c == '>' {
      assert e[1] == 'g';
      assert e[..4] == "&gt;" && e[4..] == t;
    } else if c == '"' {
      assert e[1] == 'q';
      assert e[..6] == "&quot;" && e[6..] == t;
    } else if c == '\'' {
      assert e[1] == '#';
      assert e[..5] == "&#39;" && e[5..] == t;
    } else {
      assert e[0] == c && e[1..] == t;
    }
  }

  /** Escaping loses nothing: decoding gives back the original text. */
  lemma {:induction false} UnescapeEscape(s: string)
    ensures UnescapeHtml(EscapeHtml(s)) == s
  {
    if s != [] {
      UnescapeOneChar(s[0], EscapeHtml(s[1..]));
      UnescapeEscape(s[1..]);
      assert s == [s[0]] + s[1..];
    }
  }

  // ---------- page state ----------

  class Gallery {
    /** The `digimon_stats_v1` entry of local storage: stats saved per name. */
    var saved: map<string, Stats>
    /** The page's `selected` array. */
    var selected: seq<Pick>

    /** A fresh page over whatever stats local storage already holds. */
    constructor(stored: map<string, Stats>)
      ensures saved == stored && selected == []
    {
      saved := stored;
      selected := [];
    }

    /** `getSavedStats`: the saved entry for `name`, or null when there is none. */
    method GetSavedStats(name: string) returns (r: Option<Stats>)
      ensures r.Some? <==> name in saved
      ensures r.Some? ==> r.value == saved[name]
    {
      r := if name in saved then Some(saved[name]) else None;
    }

    /** `saveStats`: stores `s` under `name`; every other name keeps its entry. */
    method SaveStats(name: string, s: Stats)
      modifies this`saved
      ensures name in saved && saved[name] == s
      ensures forall n :: n != name ==> (n in saved <==> n in old(saved))
      ensures forall n :: n != name && n in old(saved) ==> saved[n] == old(saved)[n]
    {
      saved := saved[name := s];
    }

    /**
     * The stats a card shows: the record's own, else the saved ones, else freshly generated
     * ones, which are then saved. A saved entry is never overwritten.
     */
    method CardStats(d: Digimon) returns (s: Stats)
      modifies this`saved
      ensures d.supplied.Some? ==> s == d.supplied.value && saved == old(saved)
      ensures d.supplied.None? && d.name in old(saved) ==> s == old(saved)[d.name] && saved == old(saved)
      ensures d.supplied.None? && d.name !in old(saved) ==>
        s == GalleryStats(d.name, d.level) && saved == old(saved)[d.name := s]
      ensures d.supplied.None? ==> d.name in saved && saved[d.name] == s
      ensures Extends(old(saved), saved)
    {
      var found: Option<Stats>;
      if d.supplied.Some? {
        found := d.supplied;
      } else {
        found := GetSavedStats(d.name);
      }
      if found.None? {
        s := GenerateStats(d);
        SaveStats(d.name, s);
      } else {
        s := found.value;
      }
    }

    /** `toggleSelectDigimon`: deselect a selected name, else append, evicting the oldest at two. */
    method Toggle(p: Pick)
      modifies this`selected
      ensures selected == Toggled(old(selected), p)
      ensures old(ValidSelection(selected)) ==> ValidSelection(selected)
    {
      if ValidSelection(selected) {
        ToggleKeepsValid(selected, p);
      }
      var idx := FirstIndex(selected, p.name);
      if idx != -1 {
        selected := selected[..idx] + selected[idx + 1..];
        return;
      }
      if |selected| >= 2 {
        selected := selected[1..];
      }
      selected := selected + [p];
    }
  }
}
