# Lottery pattern engine: a Dafny model

This project models the rule engine of a lottery-statistics dashboard for the
northern Vietnamese draws. Every rule works over the hundred two-digit keys
"00".."99". The engine is spread over two Python files:

- `logic.py` holds the bộ and kép tables with their classifiers, the bệt
  detector `tim_chu_so_bet`, and its two expansions, `lay_dan_cham` (dàn chạm)
  and `lay_nhi_hop` (nhị hợp).
- `streamlit_app.py` holds its own copies of the bộ, kép, hiệu and con giáp
  classifiers, the member listers `get_*_dan`, and the counters `jn` and
  `calculate_muc_so`. Its tab bodies hold the "dàn lâu ra" search
  (`calculate_lau_ra` and `get_lau_ra_with_auto_reduce`), the nhị hợp
  dàn nuôi with its hit vector K, the frequency groups with Mức 0, the
  ten-day backtest, and the staleness ("lâu ra") index of each class.

Layout, one module per concern:

- `keys.dfy` (`Keys`): keys, `f"{i:02d}"`, `int(k)`, `zfill(2)`, `[-2:]`, and
  ascending key lists.
- `text.dfy` (`Text`): `join`, `split(sep)`, `split()`, `str.count`
  (non-overlapping), and `sorted(set(...))` on characters.
- `tables.dfy` (`Tables`): dictionaries of member lists in insertion order,
  first-match scans, the reverse index and the loop that builds it, and
  generic partition lemmas.
- `logic.dfy` (`Logic`): `logic.py`.
- `classify.dfy` (`App`): the classifiers and listers of `streamlit_app.py`.
- `stats.dfy` (`Stats`): `jn`, `calculate_muc_so`, and the frequency-group /
  Mức 0 split.
- `filter.dfy` (`Filter`): the "append under a test" loop shape shared by the
  tabs.
- `tabs.dfy` (`Tabs`): tab 2 (combos, C, K, the "chưa ra" list) and tab 4
  (staleness).
- `laura.dfy` (`LauRa`): `calculate_lau_ra` and `get_lau_ra_with_auto_reduce`.
- `backtest.dfy` (`Backtest`): the level tables and the ten-day backtest.

Loops in the source become methods with loop invariants. Each method is
proved equal to a specification function, and the properties are proved as
lemmas about that function.

The tables store each member key by its integer value (7 for "07"). The
classifiers take strings, as the source does, and `KeyString`/`KeyValue` form a
proved bijection between the two forms. So a string lookup and a value lookup
agree.

The two files each have their own `bo` and `kep`. `App.BoAgrees` proves that
the label-check-then-scan `bo` of `streamlit_app.py` equals the reverse-map
`bo` of `logic.py` on every string. `App.KepAgrees` proves the two `kep`s
agree up to the spelling of their labels.

Each sentinel is modelled exactly as written:
- `bo`: `"44"` in both files;
- `kep`: `"-"` in `logic.py` and `"KHÔNG"` in `streamlit_app.py`;
- `hieu`: `-1`;
- `zodiac`: `"Không xác định"`.

The staleness and backtest code picks its input feed from a sidebar radio
button. Here that choice becomes a parameter: the chosen feed's list of
numbers. `NUM_DAYS`, the offset and the thresholds are parameters too.

Some facts about the code that the model keeps:
- The staleness tables have no tie-break; they are sorted only for display.
- Only one bệt rule is applied per call. Nothing unions several rules.
- The sentinels differ between the two files, as listed above.
- A `bộ` label such as "01" is returned by `streamlit_app.py`'s `bo` before any
  list is scanned. Every label lies in its own list, so this changes nothing.

## Model

| member | source | states |
|---|---|---|
| Logic.BoDictPartition | logic.py:4-10 | The 15 BO_DICT lists repeat no key, are pairwise disjoint and hold 100 members in all. Key v lies in exactly the list whose label is its bộ: its two digits mod 5, smaller first. |
| Tables.BuildReverseIndex | logic.py:12-15 | The module-level loop builds, entry by entry and member by member, the map in which later entries overwrite earlier ones. |
| Tables.ReverseIndexAgrees | logic.py:12-15 | For a table whose lists are disjoint, a reverse-index lookup finds a value exactly when the first-match scan does, and returns the same label. |
| Logic.ReverseBoTotal | logic.py:12-15 | REVERSE_BO is defined exactly on the 100 key values and maps each one to its bộ label. |
| Logic.Bo | logic.py:25-26 | bo gives the bộ label of db.zfill(2) when that is a two-digit key, and "44" otherwise. |
| Logic.BoOfKey | logic.py:25-26 | Every key lies in the list of its own class, and bo returns that list's label. "44" comes back only for the four keys of bộ 44, never as a fallback. |
| Logic.KepDictPartition | logic.py:17-22 | The four KEP_DICT lists have no repeats and no overlap. Together they hold exactly the 50 keys with a kép class. |
| Logic.Kep | logic.py:28-32 | A string whose zfill(2) is not a key gets "-". |
| Logic.KepNameOfKey | logic.py:28-32 | kep of a key is the label of the first, and only, KEP_DICT list holding it, or "-". |
| Logic.KepOfKey | logic.py:17-22 | Exactly the ten doubles are K.BANG. Digits five apart are K.LECH, shadow digits are K.AM, neighbouring digits are S.KEP, and every other key gets "-". Each direction is proved. |
| Logic.BetDigits | logic.py:34-51 | tim_chu_so_bet returns strictly increasing characters (sorted, no repeats). A character is in it iff some position is a bệt under the rule; each such character comes from d1, and from d2 too under Thẳng. An unknown rule gives []. |
| Logic.FindBetDigits | logic.py:34-51 | The three index loops that append to bet, followed by sorted(set(bet)), compute BetDigits. |
| Logic.BetRightExample | logic.py:42-44 | Under Bệt Phải, "123" against "912" gives "12". |
| Logic.DanChamKeys | logic.py:53-61 | lay_dan_cham lists, ascending, exactly the keys holding some character of chuoi_cham. An empty input gives []. |
| Logic.DanCham | logic.py:53-61 | The nested loop with break that fills res, followed by sorted(res), computes DanChamKeys. |
| Logic.DanChamOneDigit | logic.py:53-61 | A single digit expands to 19 keys. |
| Logic.DanChamAllDigits | logic.py:53-61 | All ten digits expand to all 100 keys. |
| Logic.NhiHop | logic.py:63-70 | lay_nhi_hop is lexicographically increasing. A pair is in it iff its two characters differ, both occur in digits_2_dong and one occurs in bet_digits. |
| Logic.NhiHopShape | logic.py:63-70 | No member is a double. Both digits come from digits_2_dong and one comes from the bệt digits. The reverse of every member is a member too. |
| Logic.NhiHopPairs | logic.py:63-70 | The loop over the combinations of the sorted distinct digits, adding both orders to nh, followed by sorted(nh), computes NhiHop. |
| Logic.NhiHopRow | logic.py:66-69 | One pass of the outer loop adds exactly the qualifying combinations that start at position i. |
| Logic.NhiHopPair | logic.py:67-69 | One combination adds both orders exactly when one of its digits is a bệt digit. |
| Logic.PairsFrom | logic.py:70 | Visiting the pairs over a sorted alphabet row by row lists a pair set in Python's sorted order. |
| Text.SortedSet | logic.py:51 | sorted(set(cs)) is strictly increasing and holds exactly the characters of cs. |
| Text.IncreasingUnique | logic.py:51 | An increasing listing of a set of characters is unique. |
| Keys.ZFill2Key | streamlit_app.py:69 | zfill(2) gives a key exactly from a key, a single digit or "". It leaves a key unchanged and keeps a single digit's value. |
| Keys.KeyStringOfValue | streamlit_app.py:134 | f"{int(k):02d}" gives back k for every key k. |
| Keys.Last2 | streamlit_app.py:383 | s[-2:] is the last two characters, or all of s when it is shorter. |
| Keys.AscendingUnique | streamlit_app.py:147 | Two ascending key lists with the same members are equal, so sorting by int fixes the order. |
| App.Bo | streamlit_app.py:67-75 | bo always returns a two-digit key. |
| App.BoAgrees | streamlit_app.py:67-75 | On every string, the label check and list scan of streamlit_app.py's bo give what logic.py's reverse-map bo gives. |
| App.BoIdempotent | streamlit_app.py:69-71 | A bộ label is its own bộ, so bo(bo(x)) == bo(x). |
| App.BoSameBo | streamlit_app.py:72-74 | Two keys have the same bo exactly when they share a BO_DICT list. |
| App.BoDanOfKey | streamlit_app.py:77-78 | Every key k is in get_bo_dan(bo(k)) split at the commas, and that list holds exactly the keys with the same bộ. |
| App.KepSetsAreLists | streamlit_app.py:82-88 | The four sets that kep tests are the four KEP_DICT lists of logic.py. |
| App.KepAgrees | streamlit_app.py:80-90 | The two kep functions agree on every string, up to the spelling of the labels ("-" becomes "KHÔNG"). |
| App.KepOfKey | streamlit_app.py:80-90 | Doubles are exactly K.BẰNG and digits five apart are exactly K.LỆCH. Each key gets one label, so the four sets are disjoint, and the remaining keys give "KHÔNG". |
| App.HieuMapPartition | streamlit_app.py:53-64 | The ten HIEU_MAP lists partition the 100 keys by (tens − units) mod 10, with ten keys each and no repeats. |
| App.Hieu | streamlit_app.py:92-97 | A string whose zfill(2) is not a key gets -1. |
| App.HieuOfKey | streamlit_app.py:92-97 | hieu(ab) equals (a − b) mod 10 and is never -1 on a key. |
| App.HieuDan | streamlit_app.py:99-100 | For h in 0..9, get_hieu_dan(h) lists exactly the ten keys with hiệu h. Any other h gives "". |
| App.ZodiacDictPartition | streamlit_app.py:38-51 | The twelve ZODIAC_DICT lists partition the 100 keys by value mod 12, without repeats. Tý..Mão hold 9 keys each and the other eight hold 8. |
| App.ZodiacNamesDistinct | streamlit_app.py:38-51 | The twelve con giáp names are pairwise different. |
| App.Zodiac | streamlit_app.py:102-107 | A string whose zfill(2) is not a key gets "Không xác định". |
| App.ZodiacOfKey | streamlit_app.py:102-107 | zodiac(k) is the (int(k) mod 12)-th name and never the fallback. |
| App.ZodiacDan | streamlit_app.py:109-110 | get_zodiac_dan(zodiac(k)) holds k and exactly the keys with the same con giáp, 9 or 8 of them. |
| App.TongKeys | streamlit_app.py:112-118 | The keys whose digit sum mod 10 is tong, in ascending order. |
| App.GetTongDan | streamlit_app.py:112-118 | The loop that appends each qualifying key, followed by the join, gives the comma-joined TongKeys. |
| App.TongSize | streamlit_app.py:112-118 | Each tổng 0..9 has exactly 10 keys. Any other value has none. |
| App.TongDan | streamlit_app.py:112-118 | Splitting get_tong_dan(t) at the commas gives back exactly the keys of tổng t. |
| Text.Count | streamlit_app.py:125 | Non-overlapping occurrences of a non-empty p never cover more than s. |
| Text.CountPositive | streamlit_app.py:125 | s.count(p) > 0 exactly when p occurs somewhere in s. |
| Text.CountExample | streamlit_app.py:125 | "000".count("00") == 1 and "0000".count("00") == 2. |
| Stats.JnKeys | streamlit_app.py:120-126 | jn lists, in ascending order, exactly the keys whose total count over rng equals rnd. |
| Stats.Jn | streamlit_app.py:120-126 | The nested loops that fill counts, followed by the filter and the join, give the comma-joined JnKeys. |
| Stats.JnPartition | streamlit_app.py:120-126 | For a fixed rng, each key is in the level of its own count and in no other, so the levels are disjoint and cover all 100 keys. |
| Stats.JnMembers | streamlit_app.py:126 | jn's result is "" exactly when no key qualifies. Otherwise splitting it at the commas gives back its keys. |
| Text.SplitJoin | streamlit_app.py:431 | split undoes join when no piece holds the separator. |
| Text.WordsJoin | streamlit_app.py:131 | split() undoes " ".join of words. |
| Stats.Tally | streamlit_app.py:135-137 | The loop that adds one per token leaves each key's frequency as its multiplicity among the tokens. |
| Stats.LevelMap | streamlit_app.py:139-143 | The loop over the 100 keys maps each frequency that occurs to its keys, in key order. |
| Stats.AddKey | streamlit_app.py:140-143 | One pass appends key v to the list of its own frequency and changes no other list. |
| Stats.GroupLevels | streamlit_app.py:145-148 | The walk down the levels emits each non-empty level, highest first. |
| Stats.AddGroup | streamlit_app.py:146-148 | One step of that walk adds level l exactly when some key has frequency l. |
| Stats.CalculateMucSo | streamlit_app.py:128-149 | Tokenising, tallying and grouping computes MucSo. |
| Stats.MucSoLevels | streamlit_app.py:128-149 | Levels are strictly descending. Each level lists, ascending, exactly the keys with that frequency, so every key sits in exactly one level, and unseen keys sit in level 0. |
| Stats.MucSoTotal | streamlit_app.py:128-149 | Σ level × size of level equals the number of tokens. |
| Stats.TokenLevelsSpec | streamlit_app.py:145-148 | The level lists from lo up are strictly descending. Each holds exactly the keys of its frequency, and every key counted at least lo times is in one. |
| Stats.MucZero | streamlit_app.py:617-619 | Mức 0 lists, ascending, exactly the keys never selected. |
| Stats.FrequencyGroups | streamlit_app.py:607-619 | The Counter grouping and Mức 0 of the summary are the frequency groups from count 1 up, and MucZero. |
| Stats.FreqGroupsWithMucZero | streamlit_app.py:607-619 | The frequency groups followed by Mức 0 are exactly calculate_muc_so's levels for the same tokens, so the two partition the 100 keys. |
| Tabs.ComboSet | streamlit_app.py:374-379 | The combos of a draw are exactly the pairs a+b of its characters, and doubles only when include_duplicates is set. |
| Tabs.NhiHopCombos | streamlit_app.py:374-379 | The nested loop that adds a+b to combos computes ComboSet. |
| Tabs.CombosDoubles | streamlit_app.py:374-379 | With include_duplicates every double d+d of the draw is a combo. Without it, the combos are that set minus the doubles. |
| Tabs.CombosSize | streamlit_app.py:374-379 | There are at most as many combos as the square of the number of distinct digits. |
| Tabs.SortedCombos | streamlit_app.py:393 | sorted(combos) is lexicographically increasing and holds exactly the combos. |
| Tabs.CompareValues | streamlit_app.py:382-385 | C[k-1] is the tail of the comparison draw k positions earlier in the list, i.e. k draws after row i, or "" when that index does not exist. |
| Tabs.HitVector | streamlit_app.py:387 | K has one entry per comparison value. |
| Tabs.HitVectorEmpty | streamlit_app.py:387 | K is all blanks exactly when no comparison value is a combo. Each entry is either blank or its comparison value. |
| Tabs.ChuaRaMeaning | streamlit_app.py:392-393 | A row is "chưa ra" exactly when i ≤ 28 and none of the draws 1..21 positions earlier in the list (1..21 draws after row i) ended in one of its combos. |
| Tabs.ChuaRaRow | streamlit_app.py:370-393 | One row's combos, C, K and dan give the row's test and its entry. |
| Tabs.ChuaRaDans | streamlit_app.py:369-393 | The loop over the first NUM_DAYS rows collects, in order, the dans of the "chưa ra" rows. |
| Tabs.ChuaRaTokens | streamlit_app.py:406-409 | Over digit draws every token of the chưa ra list is a key, so calculate_muc_so accepts it. |
| Tabs.PaddedTail | streamlit_app.py:754 | number[-2:].zfill(2) always has two characters, and it is a key for a digit string. |
| Tabs.LastTwos | streamlit_app.py:754 | last2 holds the padded tails of the first 100 draws. |
| Tabs.FirstIndex | streamlit_app.py:762 | next(...) finds the first index passing the test, or -1 exactly when none does. |
| Tabs.BoStalenessSpec | streamlit_app.py:760-763 | A bộ seen at index j has staleness in 0..j, and that draw is a member of get_bo_dan. |
| Tabs.TongStalenessSpec | streamlit_app.py:772-775 | Tổng t's staleness is -1 exactly when no draw has that sum. Otherwise it is the first draw with that sum, a member of get_tong_dan(t). |
| Tabs.ZodiacStalenessSpec | streamlit_app.py:784-787 | A con giáp seen at index j has staleness in 0..j, and that draw is a member of get_zodiac_dan. |
| Tabs.HieuStalenessSpec | streamlit_app.py:800-803 | Hiệu h's staleness is -1 exactly when no draw has it. Otherwise that draw is a member of get_hieu_dan(h). |
| Tabs.KepStalenessSpec | streamlit_app.py:812-815 | Every kép class seen, "KHÔNG" included, gets the index of its most recent draw, never -1. |
| LauRa.Window | streamlit_app.py:424-425 | The window has between 1 and 7 rows. |
| LauRa.DanNuoiKeys | streamlit_app.py:427-432 | dan_nuoi is the ascending set of keys counted 1..7 times in the window. |
| LauRa.DanNuoi | streamlit_app.py:427-432 | Gathering jn(window, 1..7), splitting and sorting without repeats computes DanNuoiKeys. |
| LauRa.RowHits | streamlit_app.py:436-440 | K for calculate_lau_ra has 28 entries. |
| LauRa.LastNonBlank | streamlit_app.py:442-447 | last_k_index is the largest index below the range holding a value, or -1 when every entry is blank. |
| LauRa.LastHitIndex | streamlit_app.py:442-447 | The backward scan with break computes LastNonBlank. |
| LauRa.RowEmptyCountBounds | streamlit_app.py:442-448 | empty_count lies in 0..min(i+1, 28). It equals the top exactly when no comparison value in range hits. |
| LauRa.EvalRow | streamlit_app.py:424-448 | One row's window, dan_nuoi, C, K and empty_count. |
| LauRa.CalculateLauRa | streamlit_app.py:419-453 | The row loop computes LauRaList. |
| LauRa.LauRaListSpec | streamlit_app.py:450-451 | There are at most 29 entries. An entry is emitted exactly for rows i ≤ 28 whose empty_count reaches the threshold and whose dan is not empty. |
| LauRa.LauRaMonotone | streamlit_app.py:419-453 | The result at a higher threshold is a subsequence of the result at a lower one. |
| LauRa.LoweredSpec | streamlit_app.py:462-465 | The lowering stops at or below the start. It stays ≥ 1 from a start ≥ 1, stops while the list is still empty only at 1 or below, and every threshold it skipped gave no entry. |
| LauRa.AutoThresholdSpec | streamlit_app.py:456-467 | The actual threshold is ≤ the initial one and ≥ 1 when the initial one is. An empty result means it reached 1 or started at or below 1. |
| LauRa.GetLauRaWithAutoReduce | streamlit_app.py:456-467 | The decrementing while-loop terminates (the threshold decreases) and returns AutoThreshold with its list. |
| Backtest.DanList | streamlit_app.py:664 | dan_list holds the dan of each entry, in order. |
| Backtest.AddLevel | streamlit_app.py:666-673 | One pass adds level l with its keys exactly when jn(dan_list, l) is not empty. |
| Backtest.BuildMucLevels | streamlit_app.py:664-673 | The loop over range(len(dan_list) + 1) builds the non-empty levels in order. |
| Backtest.Slice | streamlit_app.py:642-645 | data[start:start+NUM_DAYS] has exactly min(NUM_DAYS, len(data) − start) rows (none when start is past the end), copied in order from the feed. |
| Backtest.MucForOffset | streamlit_app.py:640-674 | calculate_muc_for_offset gives no levels for an empty lâu ra list, and otherwise the level table of its dans. |
| Backtest.HitLevel | streamlit_app.py:697-708 | The scan with break gives the level of the first entry holding the result, or "-". |
| Backtest.HitIsCount | streamlit_app.py:697-708 | The level found is exactly the result's count in dan_list. It is "-" when the list is empty, when the result is not a key, or when the count exceeds the list's length. So at most one level matches. |
| Backtest.ResultNum | streamlit_app.py:689-692 | result_num has two characters within the feed and is a key for a digit draw. Past the end it is "-", which no level holds. |
| Backtest.BacktestRowAt | streamlit_app.py:680-716 | A row holds the levels of both feeds at offset+i, tried against the result at offset+i-1. |
| Backtest.RunBacktest | streamlit_app.py:680-716 | The loop over range(1, 11) produces the ten rows in order. |

## Left out

- data_fetcher.py and the fetch_* functions of streamlit_app.py are left out. They are HTTP, HTML parsing, a thread pool, caching and clock-based dates.
- All Streamlit widgets, layout, markdown, emoji text and pandas DataFrames are left out. That covers the date, "Hit" and "K1-K5" columns of tab 2, the "Lùi" and date columns of the backtest, and the top-10 and first-20 cuts of the displayed levels.
- The hit-rate percentages and their Counter are left out, because they use floating-point division and formatting.
- Widget and sidebar values become parameters: NUM_DAYS, the offset, the comparison source, include_duplicates, the thresholds and the checkbox selection. The Thần Tài and Điện Toán rows become lists of strings. The comparison feed is passed as the list of its numbers, already chosen by the radio button.
- The unused dt_slice parameter and the unused `missing` list of tab 2 are dropped.
- The feeds are aligned only by list index. Equal date order is a precondition, and no date join is modelled.
- The staleness tables are sorted by lag only for display. Ties among equal lags follow set iteration order, so the model states no order for them.
- Stats.CalculateMucSo: requires every token to be a two-digit key. The source would also count other tokens under extra dictionary keys and then fail or misorder them in int(); every caller passes key tokens (Tabs.ChuaRaTokens).
- Stats.Tally: requires key tokens, for the same reason.
- Stats.FrequencyGroups: requires the selected keys to be two-digit keys. They come from splitting jn's output, which holds only keys.
- Tabs.TongStalenessSpec: requires every tail to be a key, because int(n[0]) raises on anything else. last2 holds zero-padded tails of digit strings.
- Logic.FindBetDigits: takes d1 and d2 as strings of characters. The source also accepts lists whose items are longer strings.
- App.GetTongDan and App.GetHieuDan take the integer that int(tong) or int(h) yields, not its string form.
