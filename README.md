# Digimon gallery and collection store — a Dafny model

The gallery page lists Digimon fetched from a public API and shows three stats per card
(attack, defence, special). It computes those stats from the creature's name and level
when the record does not carry them. It caches them in local storage by name, and it
lets the user select up to two creatures. A separate storage module keeps the player's
collection and economy: coins, owned creatures, items, a two-member battle team, and a
second stats cache with its own variant of the generator.

This project models the logic between the page and local storage:

- `JsNumbers` gives the JavaScript number operations the generator uses. That is ToInt32,
  as done by `| 0`, `<<` and `>>`, the truncating `%`, `Math.abs`, and `Math.round` on a
  weight given in hundredths.
- `JsStrings` gives the string operations: the UTF-16 code units read by `charCodeAt`,
  `toLowerCase` on ASCII letters, `trim` and `includes`.
- `Collections` gives `Array.prototype.filter`, the subsequence relation, and maps that are
  only added to.
- `Creatures` holds what both generators share: the records, the level-weight table, the
  32-bit rolling hash (a method with the source's loop, proved equal to a fold), and the
  three clamped components.
- `GalleryScript` covers `script.js`. The class `Gallery` has one field for the
  `digimon_stats_v1` storage entry and one for the page's `selected` array. The module also
  holds the gallery's `generateStats`, the choice of a card's stats, `toggleSelectDigimon`,
  the train button's enabling condition, the filter and `escapeHtml`.
- `GameStorage` covers `game-storage.js`. The class `Storage` has one field per
  `STORAGE_KEYS` entry. The module also holds the storage variant of `generateStats`.

Four facts about the code shape the model:

- The storage variant weighs a missing level as `'Rookie'` (0.9); the gallery's weighs it
  0.95 (`WeightVariantsDiffer`).
- The two `base` formulas give different stats for the same creature (`VariantsDisagree`).
- The selection has one capacity, 2. No code path limits it to a single entry; training
  only needs exactly one entry to be selected (`TrainEnabled`).
- Toggling a creature twice restores the selection only below capacity
  (`ToggleTwiceRestores`, `ToggleTwiceAtCapacity`).

## Model

| member | source | states |
|---|---|---|
| JsNumbers.ToInt32 | script.js:39 | the bitwise or with 0 yields the unique signed 32-bit value congruent to the input modulo 2^32; an int32 input is unchanged |
| JsNumbers.ShiftStepIsPolynomial | script.js:38-39 | the step `((h << 5) - h) + c`, then the bitwise or with 0, equals ToInt32(31*h + c) for every int32 `h` |
| JsNumbers.ShiftRight | script.js:47-48 | `x >> k` is an int32; for 0 <= x < 2^31 it is x / 2^k |
| JsNumbers.ShiftLeft | script.js:38 | `x << k` is the int32 congruent to ToInt32(x)·2^k modulo 2^32 |
| JsNumbers.JsRem | script.js:43-48 | `%` takes the sign of the dividend, has magnitude abs(a) mod b and lies strictly between -b and b |
| JsNumbers.JsAbs | script.js:41 | `Math.abs` is non-negative and equals x or -x |
| JsNumbers.RoundScaled | script.js:46-48 | `Math.round(v*w/100)` is the integer r with 100r <= v*w + 50 < 100r + 100 (halves round up) |
| JsStrings.Utf16 | script.js:37-38 | the hashed units are UTF-16 code units in 0..0xFFFF, at least one per character; a string with no character above U+FFFF gives exactly its own characters |
| JsStrings.Utf16OfChar | script.js:38 | one character is encoded as its own code units |
| JsStrings.Utf16Concat | script.js:37-38 | the encoding of a concatenation is the concatenation of the encodings, so it works character by character |
| JsStrings.CodeUnitsOf | script.js:38 | a character below U+10000 is one unit with its own value; any other is a high surrogate (0xD800..0xDBFF) then a low surrogate (0xDC00..0xDFFF) that decode back to it |
| JsStrings.Lower | script.js:291-292 | lower-casing keeps the length and maps each character through the ASCII letter mapping |
| JsStrings.Includes | script.js:291 | `includes` holds for an empty query, never for a query longer than the text, and at equal length exactly when the two are equal |
| JsStrings.Trim | script.js:287 | `trim` returns a slice of the input without leading or trailing JS white space; everything dropped is white space; it is empty exactly when the input is all white space |
| Collections.Filter | script.js:290-294 | `filter` keeps exactly the elements satisfying the predicate and never lengthens the list |
| Collections.FilterIsSubsequence | script.js:290-294 | the filtered list keeps the original relative order |
| Collections.FilterKeepsAll | script.js:291-292 | a predicate true of every element filters nothing out |
| Collections.FilterCount | script.js:290-294 | `filter` keeps every copy of a satisfying element and no copy of any other |
| Collections.FilterConcat | script.js:290-294 | filtering a concatenation is the concatenation of the filtered parts |
| Creatures.HashUnits | script.js:36-40 | the fold of `hash = 31*hash + unit` (wrapped to 32 bits) is always an int32 |
| Creatures.NameHash | game-storage.js:65-70 | a name's hash, over its UTF-16 units, is an int32 |
| Creatures.HashOf | script.js:36-40 | the source's shift-and-subtract loop computes exactly NameHash(name) |
| Creatures.TermsOfOrdinaryHash | script.js:46-48 | for abs < 2^31 the three terms are abs%25, (abs/8)%25 and (abs/64)%25, all in 0..24 |
| Creatures.TermsOfMinimumHash | script.js:41-48 | for hash -2^31, Math.abs gives 2^31; `>>` re-wraps it, so the defence and special terms are -6 and -7 |
| Creatures.AtkTerm | script.js:46 | `abs % 25` lies strictly between -25 and 25, and is non-negative for abs below 2^31 |
| Creatures.DefTerm | script.js:47 | `(abs >> 3) % 25` lies strictly between -25 and 25, and is non-negative for abs below 2^31 |
| Creatures.EspTerm | script.js:48 | `(abs >> 6) % 25` lies strictly between -25 and 25, and is non-negative for abs below 2^31 |
| Creatures.Component | script.js:46-48 | a component is the smaller of 100 and the rounded weighted value, and is non-negative when base + term is |
| Creatures.Derive | script.js:46-50 | with a base of at least 25, all three components lie in 0..100, whatever the hash |
| GalleryScript.GalleryWeight | script.js:26-44 | a level in the seven-level table (`LevelWeights`, script.js:26-34) gets its table weight; any other or missing level gets 0.95 |
| GalleryScript.GalleryBase | script.js:43 | the gallery base lies in 30..69 |
| GalleryScript.GalleryStats | script.js:25-51 | the gallery's stats have every component in 0..100 |
| GalleryScript.GenerateStats | script.js:25-51 | `generateStats` returns GalleryStats(name, level): a function of name and level only, in range |
| GalleryScript.FirstIndex | script.js:175 | `findIndex` gives -1 exactly when no entry has the name, else the first index holding it |
| GalleryScript.Toggled | script.js:174-188 | a click adds at most one entry and no entry other than the clicked one; on a valid selection it flips whether the clicked name is selected |
| GalleryScript.ToggleDeselects | script.js:175-179 | clicking a selected name removes that entry; the others keep their order; the name is gone |
| GalleryScript.ToggleEvictsOldest | script.js:183-187 | clicking a new name with two selected gives [second, new]: the oldest goes, the length stays 2 |
| GalleryScript.ToggleAppends | script.js:183-187 | clicking a new name with fewer than two selected appends it |
| GalleryScript.ToggleKeepsValid | script.js:174-188 | every click keeps the selection at most 2 long with pairwise distinct names |
| GalleryScript.ToggleTwiceRestores | script.js:176-187 | below capacity, clicking a new name twice restores the selection |
| GalleryScript.ToggleTwiceAtCapacity | script.js:176-187 | at capacity, clicking a new name twice leaves only the former second entry |
| GalleryScript.InTrainingLevel | script.js:257 | a level matching `/in[- ]?training/i` is at least ten characters long |
| GalleryScript.TrainEnabled | script.js:257 | the button is enabled exactly when one creature is selected and its level matches the pattern; the separate non-empty-level test changes nothing |
| GalleryScript.InTrainingUpperCase | script.js:257 | "IN TRAINING" matches the pattern, because of its `i` flag |
| GalleryScript.TrainMatchIgnoresCase | script.js:257 | the `/in[- ]?training/i` match gives the same answer on a level and its lower-cased form |
| GalleryScript.InTrainingWithSpace | script.js:257 | "In Training" matches the In-Training pattern |
| GalleryScript.InTrainingWithHyphen | script.js:257 | "In-Training" matches the In-Training pattern |
| GalleryScript.TrainLevelsAreTheInTrainingWeights | script.js:257 | among the weight-table levels, exactly those weighted 0.75 match the In-Training pattern |
| GalleryScript.TrainAfterOneClick | script.js:257 | from an empty selection, one click enables the train button exactly when the creature's level is present and matches the In-Training pattern |
| GalleryScript.TrainOffWithTwo | script.js:257 | a click that brings the selection to two entries disables the train button |
| GalleryScript.Matches | script.js:290-293 | a blank query with no level accepts every creature; a query match means the query fits in the name; a level match means the level has the chosen level's length |
| GalleryScript.ApplyFilters | script.js:286-294 | the result is an order-preserving subsequence holding exactly the creatures whose lower-cased name contains the trimmed, lower-cased query and whose level matches case-insensitively, each matching record as many times as in the input |
| GalleryScript.BlankFiltersKeepAll | script.js:287-294 | an empty or all-space query with no level chosen keeps every creature, in order |
| GalleryScript.EscapeChar | script.js:281 | each of `&<>"'` becomes an entity running from `&` to `;`; every other character stays as itself |
| GalleryScript.EscapeHtml | script.js:280-282 | no `<`, `>`, `"` or `'` remains in the escaped text, and escaping never shortens it |
| GalleryScript.UnescapeOneChar | script.js:281 | decoding the escape of one character gives that character back |
| GalleryScript.UnescapeEscape | script.js:280-282 | escaping loses nothing: decoding the five entities restores the input |
| GalleryScript.Gallery.constructor | script.js:12-14 | the page starts with no selection, over the stats already in storage |
| GalleryScript.Gallery.GetSavedStats | script.js:54-64 | returns the saved stats for the name, or null when there are none |
| GalleryScript.Gallery.SaveStats | script.js:67-76 | stores the stats under the name; every other name keeps its entry or its absence |
| GalleryScript.Gallery.CardStats | script.js:120-127 | a record's own stats win and are not saved; else the saved entry is used; else stats are generated and saved, so the next lookup returns them; a saved entry is never overwritten |
| GalleryScript.Gallery.Toggle | script.js:174-188 | `selected` becomes Toggled(old selection, click), which keeps the two-entry, distinct-name invariant |
| GameStorage.EntryOf | game-storage.js:110-114 | an owned or team entry keeps the creature's name, img and level, and drops its stats |
| GameStorage.StoreWeight | game-storage.js:52-63 | a missing level weighs as Rookie (0.9); a table level gets its weight; an unknown level gets 0.95 |
| GameStorage.WeightVariantsDiffer | game-storage.js:62-63 | the two generators weigh every present level alike; a missing level is 0.9 here and 0.95 in the gallery |
| GameStorage.StoreBase | game-storage.js:73 | the storage base lies in 45..64 |
| GameStorage.StoreStats | game-storage.js:51-79 | the storage variant's stats have every component in 0..100 |
| GameStorage.VariantsDisagree | game-storage.js:73 | the variants give different stats for one creature: (27,27,27) against (41,41,41) for the empty name at Rookie |
| GameStorage.GenerateStats | game-storage.js:51-79 | `generateStats` returns StoreStats(name, level): a function of name and level only, in range |
| GameStorage.CoinsToStore | game-storage.js:40 | the stored balance is never negative: a non-negative number is kept; a negative or non-numeric value stores 0 |
| GameStorage.WithoutName | game-storage.js:124 | removal keeps, in order and with their multiplicity, exactly the entries with another name |
| GameStorage.WithoutNameKeepsUnique | game-storage.js:122-126 | removing by name keeps owned names unique |
| GameStorage.CleanTeam | game-storage.js:145-149 | the cleaned team is the first min(2, n) members, each stripped to name/img/level; null gives [] |
| GameStorage.CleanTeamKeepsFirstTwo | game-storage.js:144-151 | a team of three or more is stored as its first two members, stripped |
| GameStorage.Storage.constructor | game-storage.js:3-9 | empty storage: no stats, nothing owned, no coins key, no items, no team |
| GameStorage.Storage.GetCoins | game-storage.js:30-37 | returns the stored balance; when absent it returns 1000 and stores it |
| GameStorage.Storage.SetCoins | game-storage.js:39-41 | stores CoinsToStore(value), which is never negative |
| GameStorage.Storage.AddCoins | game-storage.js:43-48 | returns and stores max(0, balance + delta), with the balance defaulting to 1000 |
| GameStorage.Storage.GetStats | game-storage.js:81-93 | a nameless creature gets (10,10,10) and storage is untouched; a stored name gets its stored stats; otherwise generated stats are stored and returned; stored entries never change |
| GameStorage.Storage.GetOwned | game-storage.js:101-103 | returns the owned list |
| GameStorage.Storage.AddOwned | game-storage.js:105-120 | a no-op without a creature or name; otherwise appends {name,img,level} only if the name is not owned, and ensures a stats entry exists; owned names stay unique |
| GameStorage.Storage.RemoveOwned | game-storage.js:122-126 | the owned list becomes the order-preserving removal of every entry with that name |
| GameStorage.Storage.GetItems | game-storage.js:129-131 | returns the item list |
| GameStorage.Storage.AddItem | game-storage.js:133-137 | appends the item at the end, with no deduplication |
| GameStorage.Storage.GetBattleTeam | game-storage.js:140-142 | returns the stored team |
| GameStorage.Storage.SetBattleTeam | game-storage.js:144-151 | stores CleanTeam(team): at most two stripped members, [] for null |
| GameStorage.Storage.ClearBattleTeam | game-storage.js:153-155 | stores the empty team |
| GameStorage.CoinsScenario | game-storage.js:30-48 | from empty storage, the first balance is 1000; adding -2000 gives 0; setting -5 stores 0 |
| GameStorage.StatsKeyedByName | game-storage.js:81-93 | a second lookup of a name returns the first lookup's stats, even when the level changed in between |

## Left out

- Network and page: fetching the creature list, rendering cards and slots, event
  listeners, status text, and the `create*` helpers are I/O and UI.
- `ensureArenaUI` and the train button's click handler are left out. They are DOM code and
  refer to names declared nowhere (`title`, `slotSelected`, `level`). Only the
  button-enabling condition of `updateArenaUI` (script.js:257) is modelled, as `TrainEnabled`.
- `applyFilters` also assigns `filteredList`, writes the status text and re-renders. The
  model returns the filtered list.
- JSON and local-storage mechanics: `gsGetJson`/`gsSetJson` and the `try`/`catch` fallbacks
  are modelled as typed fields that are read and assigned. Parse errors, quota errors and
  storage written by other pages are not modelled.
- GameStorage.Storage.GetStats: does not model the exception path (game-storage.js:94-96),
  which returns generated stats without storing them.
- The battle simulation is not part of these files, so it is not part of this model.
- Floating point: weights are integer hundredths and `Math.round` is applied to the exact
  product. Where v*w lands exactly on a half, the binary product may round differently.
- JavaScript coercion is not modelled: coins and deltas are integers; a non-numeric
  `setCoins` argument is `None`; `addCoins` with a non-numeric delta (which returns NaN) is
  not modelled.
- Object keys such as `toString` or `__proto__`: the weight table and the stats maps are
  finite maps, so such keys behave as ordinary absent keys.
- Missing fields: an absent `name`, `img` or `level` is the empty string. In game-storage.js
  (`digimon.name || ''`, `digimon.level || 'Rookie'`, `!name`) and in the train-button test
  that is exact. In script.js three places differ, and the model does not capture them:
  - `generateStats` reads `digimon.name.length` (script.js:37), so an absent name throws a
    TypeError; `GalleryScript.GalleryStats` hashes the empty name instead.
  - `applyFilters` calls `d.name.toLowerCase()` and `d.level.toLowerCase()`
    (script.js:291-292), so with a query or a level chosen an absent field throws;
    `GalleryScript.Matches` rejects the creature instead.
  - `getSavedStats` and `saveStats` (script.js:59, 71) use an absent name as the key
    `"undefined"`; the `Gallery` class keys it as the empty string.
  Partially supplied `atk`/`def`/`esp` on a record count as not supplied, as in the source.
- GalleryScript.ApplyFilters: `toLowerCase` is modelled on ASCII letters only, so
  non-ASCII case folding in names, levels and queries is not captured. The In-Training match is
  exact, because JavaScript's non-Unicode `/i` matching never maps a non-ASCII character to
  one of the pattern's ASCII letters.
- The item type is left generic (`Item`); the source does not check the shape of items.
