# rs-api in Dafny

A model of the decoding and validation logic of rs-api, a Java client for the
RuneScape web services. The repository carries three revisions of the client
side by side; each gets its own modules:

- `Rs…` modules model the `com.github.michaelbull.rs` revision;
- `Rsapi…` modules model the `com.mikebull94.rsapi` revision;
- `Api…` modules model the `hiscores` and `ge` modules of the `com.runescape.api` revision.

What is modelled is everything that happens after a web-service fetch has
completed. The fetch itself is a parameter: a CSV table (`seq<Record>`) for
the hiscores, a function from URL to `Option<…>` for the bestiary and the
Grand Exchange.

- **Hiscores.** A player's table is decoded positionally: skill `i` comes from row `i` and activity `i` from row `M + i`, against the schema of a `HiscoreTable`. All or nothing: either every row decodes and the player is returned, or the answer is "no player" or an exception.
  - The three revisions differ in their row-count guard (`<`, `!=`, none) and in what their `catch` absorbs. `RowDecoder` holds the shared loop.
  - `RsHiscores`, `RsapiHiscores` and `ApiHiscores` are the three `playerInformation`s and `clanInformation`s.
  - The value types `Skill`, `HiscoreActivity`/`Activity` and `ClanMate` turn the wire value -1 into "absent" and validate ranges in their constructors.
- **Bestiary search.**
  - `RsapiSearch.Search` is a class holding the filter list that its `filterBy…` methods append to. `results()` runs every filter and intersects the id sets, keeping the first filter's labels.
  - `RsapiBestiary` and `RsBestiary` turn fetched result arrays into id→label maps, resolve names to ids, check level ranges and build query URLs. The second uses `String.format`.
- **Set-once builders.** `RsapiBeast.Builder`, `RsapiItem.Builder` and `RsapiPlayer.Builder` are classes with a `built` flag and fields that each setter may fill only once, after its argument checks.
- **Grand Exchange.** `RsapiGrandExchange` checks category ids against the 38-name list, resolves names to positions, and turns an item-name prefix into the `alpha` parameter.
- **Price history.** `RsapiGraphingData` and `ApiGraphingData` key prices by the decimal text of the UTC start-of-day milliseconds. A date is an epoch day (`int`).

Exceptions are values of `JavaLang.Fault` carried in a `Result`. `Integer.parseInt`, `Long.parseLong` and Guava's `tryParse` are specified in `JavaLang`. A Guava `ImmutableMap` is an ordered list of entries whose `build` fails on a repeated key (`ImmutableMaps`).

The getters that return a stored field unchanged (`getLevel`, `getName`, `getSkills`, `getSlayerCategory`, …) are the datatype fields themselves.

## Model

| member | source | states |
|---|---|---|
| JavaLang.ParseInt | src/main/java/com/github/michaelbull/rs/hiscores/Skill.java:90-91 | `Integer.parseInt` yields only int-range values and fails only with NumberFormatException |
| JavaLang.ParseLong | src/main/java/com/github/michaelbull/rs/hiscores/Skill.java:92 | `Long.parseLong` yields only long-range values and fails only with NumberFormatException |
| JavaLang.TryParseInt | src/main/java/com/github/michaelbull/rs/hiscores/Skill.java:29 | `Ints.tryParse` yields only int-range values |
| JavaLang.TryParseLong | src/main/java/com/github/michaelbull/rs/hiscores/Skill.java:39 | `Longs.tryParse` yields only long-range values |
| JavaLang.IntDecimalRoundTrip | src/main/java/com/github/michaelbull/rs/hiscores/Skill.java:88-93 | both int parsers read back the decimal text of every int |
| JavaLang.LongDecimalRoundTrip | src/main/java/com/github/michaelbull/rs/hiscores/Skill.java:88-93 | both long parsers read back the decimal text of every long |
| JavaLang.IntOverflowRejected | hiscores/src/main/java/com/runescape/api/hiscores/model/Skill.java:49 | the decimal text of a value outside the int range is rejected by both int parsers |
| JavaLang.DecimalStringInjective | src/main/java/com/mikebull94/rsapi/grandexchange/GraphingData.java:25-37 | different numbers have different decimal texts |
| JavaLang.DecimalString | src/main/java/com/mikebull94/rsapi/grandexchange/GraphingData.java:51 | `String.valueOf(long)` is a non-empty numeral, led by '-' exactly for a negative number, and otherwise digits |
| JavaLang.TryParseAgrees | src/main/java/com/github/michaelbull/rs/hiscores/Skill.java:24-45 | where the Guava parsers succeed the JDK parsers give the same value; they differ only on a leading '+' |
| JavaLang.ParseIntWidens | src/main/java/com/github/michaelbull/rs/hiscores/Skill.java:90-92 | a text that parses as an int parses to the same long |
| JavaLang.IndexOf | src/main/java/com/mikebull94/rsapi/grandexchange/GrandExchange.java:120-123 | `List.indexOf` is -1 exactly for an absent element, otherwise its first position |
| JavaLang.IndexOfDistinct | src/main/java/com/mikebull94/rsapi/grandexchange/GrandExchange.java:47-86 | in a list without repeats every element is found at its own position |
| JavaLang.Replace | src/main/java/com/mikebull94/rsapi/bestiary/Bestiary.java:191 | replacing a character changes exactly its occurrences and keeps the length |
| JavaLang.JoinedSnoc | src/main/java/com/mikebull94/rsapi/bestiary/Bestiary.java:150-156 | a `StringJoiner` adds the first part alone and every later one after the separator |
| JavaLang.SplitJoined | src/main/java/com/mikebull94/rsapi/bestiary/Bestiary.java:150-156 | cutting a join of separator-free parts at the separator gives the parts back |
| JavaLang.FormatLiteral | src/main/java/com/github/michaelbull/rs/bestiary/Bestiary.java:36-81 | `String.format` copies text without '%' unchanged |
| JavaLang.FormatOne | src/main/java/com/github/michaelbull/rs/bestiary/Bestiary.java:36-81 | a format that ends in one `%d`, `%s` or `%c` prints the text and then the converted argument |
| ImmutableMaps.Get | src/main/java/com/mikebull94/rsapi/grandexchange/GraphingData.java:113-116 | `Map.get` finds a value exactly for a present key, and it is an entry of the map |
| ImmutableMaps.GetEntry | src/main/java/com/mikebull94/rsapi/grandexchange/GraphingData.java:113-116 | in a map without repeated keys every entry is what `get` finds under its key |
| ImmutableMaps.AsMap | src/main/java/com/mikebull94/rsapi/grandexchange/GraphingData.java:136-147 | the mapping a map denotes has exactly its keys, each with the value `get` finds |
| ImmutableMaps.FilterKeys | src/main/java/com/mikebull94/rsapi/bestiary/Search.java:148 | `Maps.filterKeys` keeps exactly the entries whose key passes the predicate |
| ImmutableMaps.FilterKeysConcat | src/main/java/com/mikebull94/rsapi/bestiary/Search.java:148 | the filtered view keeps the order of the map it filters: filtering a concatenation filters each part, and one entry stays exactly when its key passes |
| ImmutableMaps.FilterKeysDistinct | src/main/java/com/mikebull94/rsapi/bestiary/Search.java:151 | filtering keeps the keys free of repeats, so `ImmutableMap.copyOf` cannot fail |
| ImmutableMaps.Build | src/main/java/com/mikebull94/rsapi/grandexchange/GraphingData.java:59 | `ImmutableMap.Builder.build` succeeds exactly when no key was put twice, keeping the puts in order; otherwise IllegalArgumentException |
| ImmutableMaps.AsMapEqual | src/main/java/com/mikebull94/rsapi/grandexchange/GraphingData.java:136-147 | two maps are equal exactly when every key looks up the same value in both |
| RsSkill.New | src/main/java/com/github/michaelbull/rs/hiscores/Skill.java:73-79 | the constructor accepts exactly rank -1 or positive, level at least 0 and experience at least -1; anything else is IllegalArgumentException |
| RsSkill.FromRecord | src/main/java/com/github/michaelbull/rs/hiscores/Skill.java:88-93 | the CSV constructor succeeds exactly when cells 0, 1 and 2 parse as int, int and long, and then holds those values; an empty row is an index fault, a bad cell a NumberFormatException |
| RsSkill.FromCsv | src/main/java/com/github/michaelbull/rs/hiscores/Skill.java:24-45 | a short row or a cell that does not parse gives empty; parsed values out of range raise IllegalArgumentException; a present skill is valid and agrees with the CSV constructor |
| RsSkill.GetRank | src/main/java/com/github/michaelbull/rs/hiscores/Skill.java:99-101 | the rank is empty exactly for the unranked value -1 |
| RsSkill.GetExperience | src/main/java/com/github/michaelbull/rs/hiscores/Skill.java:116-118 | the experience is empty exactly for -1 |
| RsSkill.Equals | src/main/java/com/github/michaelbull/rs/hiscores/Skill.java:121-132 | field-by-field equality holds exactly when the two skills are the same value |
| RsSkill.FromRecordRoundTrip | src/main/java/com/github/michaelbull/rs/hiscores/Skill.java:88-93 | the CSV constructor reads back the row the server writes for any skill |
| RsSkill.FromCsvRoundTrip | src/main/java/com/github/michaelbull/rs/hiscores/Skill.java:24-45 | `fromCsv` reads back every valid skill and raises IllegalArgumentException for every invalid one |
| RsapiSkill.New | src/main/java/com/mikebull94/rsapi/hiscores/Skill.java:41-47 | the constructor accepts exactly rank -1 or positive, level positive and experience -1 or positive |
| RsapiSkill.FromRecord | src/main/java/com/mikebull94/rsapi/hiscores/Skill.java:54-59 | succeeds exactly when cells 0-2 parse as int, int, long, holding those values; otherwise an index fault or NumberFormatException |
| RsapiSkill.GetRank | src/main/java/com/mikebull94/rsapi/hiscores/Skill.java:65-67 | empty exactly for rank -1 |
| RsapiSkill.GetExperience | src/main/java/com/mikebull94/rsapi/hiscores/Skill.java:82-84 | empty exactly for experience -1 |
| RsapiSkill.Equals | src/main/java/com/mikebull94/rsapi/hiscores/Skill.java:87-98 | field-by-field equality is value equality |
| RsapiSkill.FromRecordRoundTrip | src/main/java/com/mikebull94/rsapi/hiscores/Skill.java:54-59 | the CSV constructor reads back the server's row for any skill, including invalid ones |
| RsapiSkill.LevelZeroRejected | src/main/java/com/mikebull94/rsapi/hiscores/Skill.java:43 | level 0 is rejected by the validating constructor yet read unchecked from a row |
| ApiSkill.FromRecord | hiscores/src/main/java/com/runescape/api/hiscores/model/Skill.java:45-50 | succeeds exactly when all three cells parse as 32-bit ints, holding those values |
| ApiSkill.GetRank | hiscores/src/main/java/com/runescape/api/hiscores/model/Skill.java:56-58 | empty exactly for rank -1 |
| ApiSkill.GetExperience | hiscores/src/main/java/com/runescape/api/hiscores/model/Skill.java:72-74 | empty exactly for experience -1 |
| ApiSkill.FromRecordRoundTrip | hiscores/src/main/java/com/runescape/api/hiscores/model/Skill.java:45-50 | the CSV constructor reads back the row written for any skill |
| ApiSkill.ExperienceOverflow | hiscores/src/main/java/com/runescape/api/hiscores/model/Skill.java:49 | experience above 2^31-1 makes the row fail with NumberFormatException |
| RsapiHiscoreActivity.New | src/main/java/com/mikebull94/rsapi/hiscores/HiscoreActivity.java:29-34 | the constructor accepts exactly rank -1 or positive and score at least -1; otherwise IllegalArgumentException |
| RsapiHiscoreActivity.FromRecord | src/main/java/com/mikebull94/rsapi/hiscores/HiscoreActivity.java:40-44 | succeeds exactly when cells 0 and 1 parse as ints, holding those values unchecked; a short row is an index fault, a bad cell a NumberFormatException |
| RsapiHiscoreActivity.GetRank | src/main/java/com/mikebull94/rsapi/hiscores/HiscoreActivity.java:50-52 | empty exactly for rank -1 |
| RsapiHiscoreActivity.GetScore | src/main/java/com/mikebull94/rsapi/hiscores/HiscoreActivity.java:58-60 | empty exactly for score -1, so a score of 0 is present |
| RsapiHiscoreActivity.Equals | src/main/java/com/mikebull94/rsapi/hiscores/HiscoreActivity.java:63-73 | field-by-field equality is value equality |
| RsapiHiscoreActivity.FromRecordRoundTrip | src/main/java/com/mikebull94/rsapi/hiscores/HiscoreActivity.java:40-44 | the CSV constructor reads back the row written for any activity |
| ApiActivity.New | hiscores/src/main/java/com/runescape/api/hiscores/model/Activity.java:30-35 | accepts exactly rank -1 or positive and score at least -1; otherwise IllegalArgumentException |
| ApiActivity.FromRecord | hiscores/src/main/java/com/runescape/api/hiscores/model/Activity.java:41-45 | succeeds exactly when cells 0 and 1 parse as ints, holding those values |
| ApiActivity.GetRank | hiscores/src/main/java/com/runescape/api/hiscores/model/Activity.java:51-53 | empty exactly for rank -1 |
| ApiActivity.GetScore | hiscores/src/main/java/com/runescape/api/hiscores/model/Activity.java:59-61 | empty exactly for score -1 |
| ApiActivity.Equals | hiscores/src/main/java/com/runescape/api/hiscores/model/Activity.java:64-74 | field-by-field equality is value equality |
| ApiActivity.FromRecordRoundTrip | hiscores/src/main/java/com/runescape/api/hiscores/model/Activity.java:41-45 | the CSV constructor reads back the row written for any activity |
| RsClanMate.New | src/main/java/com/github/michaelbull/rs/hiscores/ClanMate.java:70-77 | the constructor accepts exactly non-negative experience and kills; otherwise IllegalArgumentException |
| RsClanMate.FromRecord | src/main/java/com/github/michaelbull/rs/hiscores/ClanMate.java:85-87 | name and rank come verbatim from cells 0 and 1, the numbers parse from cells 2 and 3; it succeeds whenever four cells hold parsable non-negative numbers; a row of fewer than three cells is an index fault, a three-cell row an index fault after a good cell 2, an unparsable number a NumberFormatException and a negative one an IllegalArgumentException |
| RsClanMate.FromCsv | src/main/java/com/github/michaelbull/rs/hiscores/ClanMate.java:22-41 | a short row or an unparsable number gives empty; a parsed negative number still raises IllegalArgumentException; a present member agrees with the CSV constructor |
| RsClanMate.Equals | src/main/java/com/github/michaelbull/rs/hiscores/ClanMate.java:122-134 | field-by-field equality is value equality |
| RsClanMate.FromRecordRoundTrip | src/main/java/com/github/michaelbull/rs/hiscores/ClanMate.java:22-41 | a valid member's row reads back as that member through both readers; an invalid one's raises IllegalArgumentException through both |
| RsapiClanMate.New | src/main/java/com/mikebull94/rsapi/hiscores/ClanMate.java:40-47 | accepts exactly non-negative experience and kills |
| RsapiClanMate.FromRecord | src/main/java/com/mikebull94/rsapi/hiscores/ClanMate.java:53-55 | name and rank verbatim, numbers parsed, then validated: it succeeds whenever four cells hold parsable non-negative numbers; a short row is an index fault (after a bad cell 2, a NumberFormatException first); otherwise NumberFormatException or IllegalArgumentException as the cells dictate |
| RsapiClanMate.Equals | src/main/java/com/mikebull94/rsapi/hiscores/ClanMate.java:90-102 | field-by-field equality is value equality |
| RsapiClanMate.FromRecordRoundTrip | src/main/java/com/mikebull94/rsapi/hiscores/ClanMate.java:53-55 | a valid member's row reads back as that member; an invalid one's raises IllegalArgumentException |
| ApiClanMate.FromRecord | hiscores/src/main/java/com/runescape/api/hiscores/model/ClanMate.java:49-51 | succeeds exactly when cells 2 and 3 parse as ints, with name and rank verbatim and no validation |
| ApiClanMate.FromRecordRoundTrip | hiscores/src/main/java/com/runescape/api/hiscores/model/ClanMate.java:49-51 | every member's row reads back as that member |
| RowDecoder.Cell | src/main/java/com/mikebull94/rsapi/hiscores/Hiscores.java:147 | `CSVRecord.get` returns the cell exactly when the index is inside the record, otherwise an index fault |
| RowDecoder.IntCell | src/main/java/com/mikebull94/rsapi/hiscores/Hiscores.java:165 | an int cell succeeds exactly when the cell exists and parses; a missing cell is an index fault, a bad one a NumberFormatException |
| RowDecoder.LongCell | src/main/java/com/mikebull94/rsapi/hiscores/Hiscores.java:165 | the same for a long cell |
| RowDecoder.Present | src/main/java/com/mikebull94/rsapi/hiscores/Hiscores.java:65 | the hiscores' -1 convention: absent exactly for -1, otherwise the value itself |
| RowDecoder.ReadEntries | src/main/java/com/mikebull94/rsapi/hiscores/Hiscores.java:159-169 | the put loop of `readSkills`/`readActivities` computes the bound entries of the specification function, including its first fault |
| RowDecoder.PrependNothing | src/main/java/com/mikebull94/rsapi/hiscores/Hiscores.java:164-168 | prefixing no entries leaves a loop outcome unchanged |
| RowDecoder.PrependTwice | src/main/java/com/mikebull94/rsapi/hiscores/Hiscores.java:164-168 | prefixing entries one at a time equals prefixing them together |
| RowDecoder.Catching | src/main/java/com/mikebull94/rsapi/hiscores/Hiscores.java:210-214 | the `catch` turns a caught fault into no player, lets any other fault escape, and wraps a success |
| RowDecoder.BoundAt | src/main/java/com/mikebull94/rsapi/hiscores/Hiscores.java:164-166 | after a successful loop, name i is bound to the decoding of record offset + i |
| RowDecoder.BoundBinds | src/main/java/com/mikebull94/rsapi/hiscores/Hiscores.java:164-168 | a successful loop binds exactly the names, in order, each to its own record's decoding, and the records it needs exist |
| RowDecoder.BoundOfRows | src/main/java/com/mikebull94/rsapi/hiscores/Hiscores.java:164-168 | when every record in range decodes, the loop binds every name to its value |
| RowDecoder.BoundShort | src/main/java/com/mikebull94/rsapi/hiscores/Hiscores.java:146-147 | a loop that needs a record past the end fails |
| RowDecoder.BoundWindow | src/main/java/com/mikebull94/rsapi/hiscores/Hiscores.java:146-147 | the loop reads only the records in its window |
| RowDecoder.BoundFaults | src/main/java/com/mikebull94/rsapi/hiscores/Hiscores.java:164-168 | a loop fault is an index fault for a short table or the fault of one of the rows read |
| RowDecoder.DecodeFaults | src/main/java/com/mikebull94/rsapi/hiscores/Hiscores.java:205-209 | a fault of the `try` block is a missing row, a duplicate name rejected by `build`, or a row's own fault |
| RowDecoder.BoundRowFails | src/main/java/com/mikebull94/rsapi/hiscores/Hiscores.java:164-168 | one row that does not decode fails the whole loop: no partial map |
| RowDecoder.DecodeRowFails | src/main/java/com/mikebull94/rsapi/hiscores/Hiscores.java:205-209 | one bad skill or activity row fails the whole `try` block |
| RowDecoder.BuildBoundBinds | src/main/java/com/mikebull94/rsapi/hiscores/Hiscores.java:205-209 | a successful loop and build put exactly the names, none twice, each bound to the decoding of its own record |
| RowDecoder.DecodeBinds | src/main/java/com/mikebull94/rsapi/hiscores/Hiscores.java:205-209 | a decoded player holds exactly the schema's names, skill i from record i and activity i from record M + i |
| RowDecoder.DecodeSucceeds | src/main/java/com/mikebull94/rsapi/hiscores/Hiscores.java:205-209 | all or nothing: every schema row present and decoding, no repeated name, gives exactly those values |
| RowDecoder.DecodeShort | src/main/java/com/mikebull94/rsapi/hiscores/Hiscores.java:205-209 | a table shorter than the schema never decodes |
| RowDecoder.DecodeIgnoresTail | src/main/java/com/mikebull94/rsapi/hiscores/Hiscores.java:205-209 | rows past the schema's last row are never read |
| RowDecoder.Rendered | src/main/java/com/mikebull94/rsapi/hiscores/Hiscores.java:192-209 | the rows a server writes: one encoded record per value, in order |
| RowDecoder.DecodeRendered | src/main/java/com/mikebull94/rsapi/hiscores/Hiscores.java:205-209 | rendering skills then activities and decoding gives back exactly those values |
| RowDecoder.ReadClan | src/main/java/com/mikebull94/rsapi/hiscores/Hiscores.java:230-242 | the `clanInformation` loop computes the specification of the listing over the rows after the header |
| RowDecoder.ClanSkipsHeader | src/main/java/com/mikebull94/rsapi/hiscores/Hiscores.java:230 | the header row is never looked at |
| RowDecoder.MembersAppend | src/main/java/com/mikebull94/rsapi/hiscores/Hiscores.java:230-242 | the members of consecutive row blocks concatenate in row order, and the first fault wins |
| RowDecoder.MembersOfRow | src/main/java/com/mikebull94/rsapi/hiscores/Hiscores.java:233-238 | a row of the wrong width or with unparsable numbers adds nothing; a decoding row adds its member; another fault aborts |
| RowDecoder.MembersWithout | src/main/java/com/mikebull94/rsapi/hiscores/Hiscores.java:233-238 | removing a skipped or dropped row does not change the outcome |
| RowDecoder.MembersRendered | src/main/java/com/mikebull94/rsapi/hiscores/Hiscores.java:230-242 | a listing written as four-cell rows decodes to exactly its members, in order |
| RowDecoder.MembersFrom | src/main/java/com/mikebull94/rsapi/hiscores/Hiscores.java:233-235 | every member returned was decoded from a four-cell row |
| RowDecoder.MembersNeverFail | src/main/java/com/mikebull94/rsapi/hiscores/Hiscores.java:233-238 | when a four-cell row can only fail on an unparsable number, the listing never fails |
| RsHiscores.OldschoolSkillsArePrefix | src/main/java/com/github/michaelbull/rs/hiscores/Hiscores.java:28-90 | the oldschool skills are the first 24 modern skills, in order |
| RsHiscores.ListsExtendEarlierRevision | src/main/java/com/github/michaelbull/rs/hiscores/Hiscores.java:28-134 | this revision's lists are the earlier revision's plus Invention and the five clue-scroll tiers; the oldschool lists are unchanged |
| RsHiscores.NamesDistinct | src/main/java/com/github/michaelbull/rs/hiscores/Hiscores.java:28-134 | no name list repeats a name, so `build` never sees a duplicate key |
| RsHiscores.ReadSkills | src/main/java/com/github/michaelbull/rs/hiscores/Hiscores.java:163-173 | too few rows gives an empty map; otherwise the loop's bound entries from row 0 |
| RsHiscores.ReadActivities | src/main/java/com/github/michaelbull/rs/hiscores/Hiscores.java:145-155 | too few rows gives an empty map; otherwise the loop's bound entries from row M |
| RsHiscores.PlayerInformation | src/main/java/com/github/michaelbull/rs/hiscores/Hiscores.java:196-219 | no player for too few rows or an unparsable number; other faults escape; equal to the specification outcome |
| RsHiscores.PlayerFound | src/main/java/com/github/michaelbull/rs/hiscores/Hiscores.java:205-213 | a found player has a row for every name and binds each name to its own row's decoding |
| RsHiscores.PlayerFaults | src/main/java/com/github/michaelbull/rs/hiscores/Hiscores.java:205-216 | the only escaping faults are a short row and a repeated name |
| RsHiscores.PlayerUnparsable | src/main/java/com/github/michaelbull/rs/hiscores/Hiscores.java:214-216 | any unparsable number yields no player, never a partial one |
| RsHiscores.PlayerMisalignedRaises | src/main/java/com/github/michaelbull/rs/hiscores/Hiscores.java:214-216 | a two-cell row where a skill row belongs escapes as an index fault instead of yielding no player |
| RsHiscores.PlayerRoundTrip | src/main/java/com/github/michaelbull/rs/hiscores/Hiscores.java:196-219 | rows rendered from rankings decode to a player with exactly those rankings |
| RsHiscores.PlayerIgnoresTail | src/main/java/com/github/michaelbull/rs/hiscores/Hiscores.java:205-213 | extra rows after the last activity do not change the answer |
| RsHiscores.ClanInformation | src/main/java/com/github/michaelbull/rs/hiscores/Hiscores.java:228-247 | the clan listing equals the specification over the rows after the header |
| RsHiscores.ClanMatesValid | src/main/java/com/github/michaelbull/rs/hiscores/Hiscores.java:234-240 | every mate returned passed the constructor's checks and came from a four-cell row |
| RsHiscores.ClanRoundTrip | src/main/java/com/github/michaelbull/rs/hiscores/Hiscores.java:228-247 | a listing of valid mates under any header decodes to exactly those mates |
| RsHiscores.ClanRejectsInvalid | src/main/java/com/github/michaelbull/rs/hiscores/Hiscores.java:239-240 | a mate with negative numbers is not skipped: the IllegalArgumentException fails the listing |
| RsapiHiscores.OldschoolSkillsArePrefix | src/main/java/com/mikebull94/rsapi/hiscores/Hiscores.java:30-91 | the oldschool skills are the first 24 modern skills, in order |
| RsapiHiscores.NamesDistinct | src/main/java/com/mikebull94/rsapi/hiscores/Hiscores.java:30-130 | no name list repeats a name |
| RsapiHiscores.ReadSkills | src/main/java/com/mikebull94/rsapi/hiscores/Hiscores.java:159-169 | too few rows is an IllegalArgumentException; otherwise the loop's bound entries from row 0 |
| RsapiHiscores.ReadActivities | src/main/java/com/mikebull94/rsapi/hiscores/Hiscores.java:141-151 | too few rows is an IllegalArgumentException; otherwise the loop's bound entries from row M |
| RsapiHiscores.PlayerInformation | src/main/java/com/mikebull94/rsapi/hiscores/Hiscores.java:192-215 | no player unless the row count is exactly M + A, none for an unparsable number; other faults escape |
| RsapiHiscores.PlayerFound | src/main/java/com/mikebull94/rsapi/hiscores/Hiscores.java:201-209 | a found player has exactly one row per name, each name bound to its own row |
| RsapiHiscores.PlayerFaults | src/main/java/com/mikebull94/rsapi/hiscores/Hiscores.java:201-212 | the only escaping faults are a short row and a repeated name |
| RsapiHiscores.PlayerUnparsable | src/main/java/com/mikebull94/rsapi/hiscores/Hiscores.java:210-212 | any unparsable number yields no player |
| RsapiHiscores.PlayerMisalignedRaises | src/main/java/com/mikebull94/rsapi/hiscores/Hiscores.java:210-212 | a two-cell row in a skill position escapes as an index fault |
| RsapiHiscores.PlayerRoundTrip | src/main/java/com/mikebull94/rsapi/hiscores/Hiscores.java:192-215 | rows rendered from rankings decode to exactly those rankings |
| RsapiHiscores.ClanInformation | src/main/java/com/mikebull94/rsapi/hiscores/Hiscores.java:224-243 | the clan listing equals the specification over the rows after the header |
| RsapiHiscores.ClanMatesValid | src/main/java/com/mikebull94/rsapi/hiscores/Hiscores.java:230-236 | every mate returned is valid and came from a four-cell row |
| RsapiHiscores.ClanRoundTrip | src/main/java/com/mikebull94/rsapi/hiscores/Hiscores.java:224-243 | a listing of valid mates decodes to exactly those mates |
| RsapiHiscores.ClanRejectsInvalid | src/main/java/com/mikebull94/rsapi/hiscores/Hiscores.java:235-236 | a negative number fails the whole listing |
| ApiHiscores.PlayerInformation | hiscores/src/main/java/com/runescape/api/hiscores/Hiscores.java:184-200 | equal to the specification: the player when every row decodes, no player for any fault at all |
| ApiHiscores.PlayerFound | hiscores/src/main/java/com/runescape/api/hiscores/Hiscores.java:148-194 | a found player has a row for every name, no repeated name, each name bound to its own row |
| ApiHiscores.PlayerShortAbsent | hiscores/src/main/java/com/runescape/api/hiscores/Hiscores.java:195-199 | a table with too few rows yields no player |
| ApiHiscores.PlayerIgnoresTail | hiscores/src/main/java/com/runescape/api/hiscores/Hiscores.java:148-173 | rows after the last activity are not read |
| ApiHiscores.PlayerRoundTrip | hiscores/src/main/java/com/runescape/api/hiscores/Hiscores.java:184-200 | rows rendered from rankings decode to exactly those rankings |
| ApiHiscores.OverallOverflowHidesPlayer | hiscores/src/main/java/com/runescape/api/hiscores/Hiscores.java:153 | an overall experience above 2^31-1 makes the player not found |
| ApiHiscores.ClanInformation | hiscores/src/main/java/com/runescape/api/hiscores/Hiscores.java:209-227 | the clan listing equals the specification over the rows after the header |
| ApiHiscores.ClanNeverFails | hiscores/src/main/java/com/runescape/api/hiscores/Hiscores.java:217-222 | decoding a mate only fails on a number, so the listing never fails |
| ApiHiscores.ClanRoundTrip | hiscores/src/main/java/com/runescape/api/hiscores/Hiscores.java:209-227 | a listing under any header decodes to exactly its members |
| RsHiscoreTable.Search | src/main/java/com/github/michaelbull/rs/hiscores/HiscoreTable.java:55-60 | the loop finds a listed table with that service name, and finds none exactly when no listed table has it |
| RsHiscoreTable.From | src/main/java/com/github/michaelbull/rs/hiscores/HiscoreTable.java:54-61 | `from` returns a table with the given service name, and empty exactly when no table has it |
| RsHiscoreTable.ValuesComplete | src/main/java/com/github/michaelbull/rs/hiscores/HiscoreTable.java:12-47 | `values()` lists every table |
| RsHiscoreTable.NameInjective | src/main/java/com/github/michaelbull/rs/hiscores/HiscoreTable.java:17-47 | two tables with the same service name are the same table |
| RsHiscoreTable.FromName | src/main/java/com/github/michaelbull/rs/hiscores/HiscoreTable.java:54-61 | every table is found by its own service name |
| RsHiscoreTable.ServiceNamePrefix | src/main/java/com/github/michaelbull/rs/hiscores/HiscoreTable.java:17-47 | every service name starts with "hiscore" |
| RsHiscoreTable.FromNeedsServiceName | src/main/java/com/github/michaelbull/rs/hiscores/HiscoreTable.java:54-61 | a name without the "hiscore" prefix, a constant's own name among them, finds nothing |
| RsHiscoreTable.OldschoolByName | src/main/java/com/github/michaelbull/rs/hiscores/HiscoreTable.java:17-47 | a table reads the oldschool lists exactly when its service name starts with "hiscore_oldschool"; it has 27 or 57 rows |
| RsHiscoreTable.PlayerRoundTrip | src/main/java/com/github/michaelbull/rs/hiscores/HiscoreTable.java:17-111 | for every table, rankings rendered as rows in the table's order read back as exactly those rankings |
| RsapiHiscoreTable.Search | src/main/java/com/mikebull94/rsapi/hiscores/HiscoreTable.java:52-56 | the loop finds a listed table with that service name, and finds none exactly when none has it |
| RsapiHiscoreTable.From | src/main/java/com/mikebull94/rsapi/hiscores/HiscoreTable.java:51-58 | `from` returns a table with the given service name, and raises IllegalArgumentException exactly when no table has it |
| RsapiHiscoreTable.ValuesComplete | src/main/java/com/mikebull94/rsapi/hiscores/HiscoreTable.java:10-44 | `values()` lists every table |
| RsapiHiscoreTable.NameInjective | src/main/java/com/mikebull94/rsapi/hiscores/HiscoreTable.java:14-44 | two tables with the same service name are the same table |
| RsapiHiscoreTable.FromName | src/main/java/com/mikebull94/rsapi/hiscores/HiscoreTable.java:51-58 | every table is found by its own service name |
| RsapiHiscoreTable.ServiceNamePrefix | src/main/java/com/mikebull94/rsapi/hiscores/HiscoreTable.java:14-44 | every service name starts with "hiscore" |
| RsapiHiscoreTable.FromNeedsServiceName | src/main/java/com/mikebull94/rsapi/hiscores/HiscoreTable.java:51-58 | a name without the "hiscore" prefix raises IllegalArgumentException |
| RsapiHiscoreTable.OldschoolByName | src/main/java/com/mikebull94/rsapi/hiscores/HiscoreTable.java:14-44 | a table reads the oldschool lists exactly when its service name starts with "hiscore_oldschool"; it has 27 or 51 rows |
| RsapiHiscoreTable.PlayerRoundTrip | src/main/java/com/mikebull94/rsapi/hiscores/HiscoreTable.java:14-108 | for every table, rankings rendered as rows read back as exactly those rankings |
| RsapiPlayer.Assemble | src/main/java/com/mikebull94/rsapi/hiscores/Player.java:35-38 | the build succeeds exactly when neither map repeats a name, and then keeps both entry lists as given; otherwise IllegalArgumentException |
| RsapiPlayer.AssembleRejectsRepeat | src/main/java/com/mikebull94/rsapi/hiscores/Player.java:23-38 | putting the same skill name twice makes the build fail |
| RsapiPlayer.EqualsIsEquivalence | src/main/java/com/mikebull94/rsapi/hiscores/Player.java:83-93 | `equals` is reflexive, symmetric and transitive, as `Object.equals` requires |
| RsapiPlayer.Equals | src/main/java/com/mikebull94/rsapi/hiscores/Player.java:83-93 | `equals` holds exactly when every name looks up the same skill and the same activity in both players |
| RsapiPlayer.Builder.constructor | src/main/java/com/mikebull94/rsapi/hiscores/Player.java:19-21 | a new builder is not built and holds no entries |
| RsapiPlayer.Builder.Skill | src/main/java/com/mikebull94/rsapi/hiscores/Player.java:23-27 | IllegalStateException once built; otherwise the entry is appended and the activity entries are unchanged |
| RsapiPlayer.Builder.Activity | src/main/java/com/mikebull94/rsapi/hiscores/Player.java:29-33 | IllegalStateException once built; otherwise the entry is appended and the skill entries are unchanged |
| RsapiPlayer.Builder.Build | src/main/java/com/mikebull94/rsapi/hiscores/Player.java:35-39 | the builder is then built; a second build is an IllegalStateException; the first assembles exactly the entries put |
| RsapiSearch.Apply | src/main/java/com/mikebull94/rsapi/bestiary/Search.java:23-29 | a successful filter query returns a map whose ids do not repeat |
| RsapiSearch.Answers | src/main/java/com/mikebull94/rsapi/bestiary/Search.java:141-150 | one answer per filter, in filter order, each that filter's query |
| RsapiSearch.Combine | src/main/java/com/mikebull94/rsapi/bestiary/Search.java:141-151 | no filters is an IllegalStateException |
| RsapiSearch.Run | src/main/java/com/mikebull94/rsapi/bestiary/Search.java:55-121 | running a filter computes exactly that filter's bestiary query |
| RsapiSearch.NarrowRunsAll | src/main/java/com/mikebull94/rsapi/bestiary/Search.java:144-150 | a successful narrowing met no failed query |
| RsapiSearch.NarrowRunsThrough | src/main/java/com/mikebull94/rsapi/bestiary/Search.java:144-150 | each single query of a successful narrowing succeeded |
| RsapiSearch.NarrowKeys | src/main/java/com/mikebull94/rsapi/bestiary/Search.java:144-150 | a successful narrowing keeps an id exactly when every remaining answer holds it |
| RsapiSearch.NarrowSubset | src/main/java/com/mikebull94/rsapi/bestiary/Search.java:144-150 | narrowing keeps only entries of the first answer and introduces no repeated id |
| RsapiSearch.CombineRunsAll | src/main/java/com/mikebull94/rsapi/bestiary/Search.java:141-151 | a successful search had at least one filter and met no failed query |
| RsapiSearch.CombineKeys | src/main/java/com/mikebull94/rsapi/bestiary/Search.java:144-150 | an id is in a successful search's result exactly when every filter's answer holds it (the intersection) |
| RsapiSearch.CombineLabels | src/main/java/com/mikebull94/rsapi/bestiary/Search.java:144-151 | every result entry keeps the name the first answer gave it, no id repeats, and the result is the first answer's entries held by every answer, in the first answer's order |
| RsapiSearch.NarrowOrder | src/main/java/com/mikebull94/rsapi/bestiary/Search.java:146-149 | the filter loop leaves exactly the entries of the first answer whose id every later answer holds, in the first answer's order |
| RsapiSearch.KeepHeldFiltered | src/main/java/com/mikebull94/rsapi/bestiary/Search.java:146-149 | one more filter step keeps, in order, what the remaining answers and the step's answer all hold |
| RsapiSearch.OutcomeOfOne | src/main/java/com/mikebull94/rsapi/bestiary/Search.java:141-151 | a search with one filter returns that filter's map |
| RsapiSearch.CombineWithEmptyAnswer | src/main/java/com/mikebull94/rsapi/bestiary/Search.java:144-150 | an answer that holds nothing makes a successful search find nothing |
| RsapiSearch.CombineRunsPastEmpty | src/main/java/com/mikebull94/rsapi/bestiary/Search.java:144-150 | an empty answer does not stop the search: the next filter still runs and its failure is the outcome |
| RsapiSearch.Search.constructor | src/main/java/com/mikebull94/rsapi/bestiary/Search.java:46-48 | a new search queries the given bestiary and has no filters |
| RsapiSearch.Search.FilterByNameTerms | src/main/java/com/mikebull94/rsapi/bestiary/Search.java:55-59 | appends a name-terms filter and returns the same search |
| RsapiSearch.Search.FilterByNameFirstLetter | src/main/java/com/mikebull94/rsapi/bestiary/Search.java:66-69 | appends a first-letter filter and returns the same search |
| RsapiSearch.Search.FilterByArea | src/main/java/com/mikebull94/rsapi/bestiary/Search.java:76-80 | appends an area filter and returns the same search |
| RsapiSearch.Search.FilterBySlayerCategoryId | src/main/java/com/mikebull94/rsapi/bestiary/Search.java:87-90 | appends a category-id filter and returns the same search |
| RsapiSearch.Search.FilterBySlayerCategoryName | src/main/java/com/mikebull94/rsapi/bestiary/Search.java:97-101 | appends a category-name filter and returns the same search |
| RsapiSearch.Search.FilterByWeaknessId | src/main/java/com/mikebull94/rsapi/bestiary/Search.java:108-111 | appends a weakness-id filter and returns the same search |
| RsapiSearch.Search.FilterByWeaknessName | src/main/java/com/mikebull94/rsapi/bestiary/Search.java:118-122 | appends a weakness-name filter and returns the same search |
| RsapiSearch.Search.FilterByLevel | src/main/java/com/mikebull94/rsapi/bestiary/Search.java:130-134 | IllegalArgumentException and no new filter unless the upper bound exceeds the lower; otherwise appends a level filter |
| RsapiSearch.Search.Results | src/main/java/com/mikebull94/rsapi/bestiary/Search.java:141-152 | the result is the combination of every filter's answer in order |
| RsapiBestiary.Labelled | src/main/java/com/mikebull94/rsapi/bestiary/Bestiary.java:100-105 | the puts are exactly the labelled results: every entry comes from a result, every labelled result is put |
| RsapiBestiary.LabelledConcat | src/main/java/com/mikebull94/rsapi/bestiary/Bestiary.java:102-104 | the puts follow array order |
| RsapiBestiary.LabelMap | src/main/java/com/mikebull94/rsapi/bestiary/Bestiary.java:95-107 | a null array gives the empty map; otherwise the build succeeds exactly when no id repeats, else IllegalArgumentException |
| RsapiBestiary.Query | src/main/java/com/mikebull94/rsapi/bestiary/Bestiary.java:95-107 | a query with no answer gives the empty map; an answer is accepted exactly when its labelled ids do not repeat, and then becomes the map of its labelled results; otherwise IllegalArgumentException |
| RsapiBestiary.SearchByFirstLetter | src/main/java/com/mikebull94/rsapi/bestiary/Bestiary.java:167-169 | no answer for the letter's URL gives the empty map; an answer becomes the map of its labelled results when no id repeats, and IllegalArgumentException when one does |
| RsapiBestiary.AreaIdentifier | src/main/java/com/mikebull94/rsapi/bestiary/Bestiary.java:191 | every space of the area name is replaced by '+', one character for one |
| RsapiBestiary.BeastsInArea | src/main/java/com/mikebull94/rsapi/bestiary/Bestiary.java:189-192 | no answer for the area's URL gives the empty map; an answer becomes the map of its labelled results when no id repeats, and IllegalArgumentException when one does |
| RsapiBestiary.SlayerCategories | src/main/java/com/mikebull94/rsapi/bestiary/Bestiary.java:200-203 | the fetched category table, or the empty map when nothing was fetched |
| RsapiBestiary.BeastsInSlayerCategory | src/main/java/com/mikebull94/rsapi/bestiary/Bestiary.java:212-214 | no answer for the category's URL gives the empty map; an answer becomes the map of its labelled results when no id repeats, and IllegalArgumentException when one does |
| RsapiBestiary.Weaknesses | src/main/java/com/mikebull94/rsapi/bestiary/Bestiary.java:235-238 | the fetched weakness table, or the empty map when nothing was fetched |
| RsapiBestiary.BeastsWeakTo | src/main/java/com/mikebull94/rsapi/bestiary/Bestiary.java:247-249 | no answer for the weakness's URL gives the empty map; an answer becomes the map of its labelled results when no id repeats, and IllegalArgumentException when one does |
| RsapiBestiary.ResultsToImmutableMap | src/main/java/com/mikebull94/rsapi/bestiary/Bestiary.java:95-107 | the put loop computes exactly the specified map |
| RsapiBestiary.SearchTermsReadBack | src/main/java/com/mikebull94/rsapi/bestiary/Bestiary.java:148-158 | terms without '+' are recovered by cutting the query at every '+' |
| RsapiBestiary.SearchByTerms | src/main/java/com/mikebull94/rsapi/bestiary/Bestiary.java:148-158 | the joiner loop builds exactly the '+'-joined query URL |
| RsapiBestiary.AreaIdentifierReadBack | src/main/java/com/mikebull94/rsapi/bestiary/Bestiary.java:189-192 | the area identifier holds no space, and an area name without '+' is recovered from it |
| RsapiBestiary.BeastsInSlayerCategoryNamed | src/main/java/com/mikebull94/rsapi/bestiary/Bestiary.java:223-227 | an unknown category name gives the empty map with no search; a known one searches by its id |
| RsapiBestiary.BeastsWeakToNamed | src/main/java/com/mikebull94/rsapi/bestiary/Bestiary.java:258-262 | an unknown weakness name gives the empty map; a known one searches by its id |
| RsapiBestiary.LevelGroupIdentifierReadBack | src/main/java/com/mikebull94/rsapi/bestiary/Bestiary.java:274 | for a non-negative range the identifier splits at '-' into the two bounds, which parse back |
| RsapiBestiary.BeastsInLevelGroup | src/main/java/com/mikebull94/rsapi/bestiary/Bestiary.java:272-275 | IllegalArgumentException unless the upper bound exceeds the lower; otherwise the level-group search |
| RsBestiary.BaseHasNoPercent | src/main/java/com/github/michaelbull/rs/bestiary/Bestiary.java:31 | the service address holds no '%' and is the same in both revisions |
| RsBestiary.FormatAfterBase | src/main/java/com/github/michaelbull/rs/bestiary/Bestiary.java:36-81 | formatting the address, a path and one specifier prints the path and the converted argument |
| RsBestiary.SearchUrlAgrees | src/main/java/com/github/michaelbull/rs/bestiary/Bestiary.java:147-156 | the formatted search URL equals the concatenated one of the other revision |
| RsBestiary.SearchByTerms | src/main/java/com/github/michaelbull/rs/bestiary/Bestiary.java:147-157 | the joiner loop and format fetch the same search as the other revision |
| RsBestiary.SearchByFirstLetterAgrees | src/main/java/com/github/michaelbull/rs/bestiary/Bestiary.java:166-169 | the `%c` URL equals the other revision's |
| RsBestiary.BeastsInAreaAgrees | src/main/java/com/github/michaelbull/rs/bestiary/Bestiary.java:189-193 | the area URL equals the other revision's |
| RsBestiary.SlayerCategoryAgrees | src/main/java/com/github/michaelbull/rs/bestiary/Bestiary.java:201-216 | the category table and the `%d` URL equal the other revision's |
| RsBestiary.BeastsInSlayerCategoryNamed | src/main/java/com/github/michaelbull/rs/bestiary/Bestiary.java:225-229 | an unknown category name gives the empty map; a known one searches by its id |
| RsBestiary.WeaknessAgrees | src/main/java/com/github/michaelbull/rs/bestiary/Bestiary.java:237-252 | the weakness table and URL equal the other revision's |
| RsBestiary.BeastsWeakToNamed | src/main/java/com/github/michaelbull/rs/bestiary/Bestiary.java:261-265 | an unknown weakness name gives the empty map; a known one searches by its id |
| RsBestiary.NamedLookupsAgree | src/main/java/com/github/michaelbull/rs/bestiary/Bestiary.java:225-265 | lookups by category or weakness name give the same map in both revisions |
| RsBestiary.BeastsInLevelGroup | src/main/java/com/github/michaelbull/rs/bestiary/Bestiary.java:275-279 | IllegalArgumentException unless the upper bound exceeds the lower |
| RsBestiary.BeastsInLevelGroupAgrees | src/main/java/com/github/michaelbull/rs/bestiary/Bestiary.java:275-279 | both revisions reject the same ranges and search an accepted one at the same "lower-upper" URL |
| RsapiBeast.GetWeakness | src/main/java/com/mikebull94/rsapi/bestiary/Beast.java:418-423 | the weakness is absent exactly when it is null or the placeholder "None"; otherwise it is the stored text |
| RsapiBeast.GetAnimation | src/main/java/com/mikebull94/rsapi/bestiary/Beast.java:558-561 | an animation id is present exactly when the name is in the animation map, and is the id stored there |
| RsapiBeast.DefaultsValid | src/main/java/com/mikebull94/rsapi/bestiary/Beast.java:24-46 | a new builder's values pass every setter check |
| RsapiBeast.BuiltBeastWellFormed | src/main/java/com/mikebull94/rsapi/bestiary/Beast.java:199-226 | a beast built from checked values is well formed (non-empty weakness and slayer category, non-negative stats, 0 when never set, size at least 1, distinct non-empty areas, non-empty animation names with positive ids), has no weakness exactly when none was set, and a slayer category exactly when one was set |
| RsapiBeast.Builder.constructor | src/main/java/com/mikebull94/rsapi/bestiary/Beast.java:47-49 | a new builder is not built, keeps its id and holds the default values |
| RsapiBeast.Builder.Name | src/main/java/com/mikebull94/rsapi/bestiary/Beast.java:51-57 | IllegalStateException when built or already named; IllegalArgumentException for an empty name; otherwise only the name changes; checked values stay checked |
| RsapiBeast.Builder.Description | src/main/java/com/mikebull94/rsapi/bestiary/Beast.java:59-65 | the same once-only, non-empty rule for the description |
| RsapiBeast.Builder.Weakness | src/main/java/com/mikebull94/rsapi/bestiary/Beast.java:67-74 | IllegalStateException unless the weakness is still "None"; IllegalArgumentException for "" or "None"; otherwise only the weakness changes |
| RsapiBeast.Builder.Attackable | src/main/java/com/mikebull94/rsapi/bestiary/Beast.java:76-81 | IllegalStateException when built or already set; otherwise only the flag is set |
| RsapiBeast.Builder.Aggressive | src/main/java/com/mikebull94/rsapi/bestiary/Beast.java:83-88 | the same once-only rule for the aggressive flag |
| RsapiBeast.Builder.Poisonous | src/main/java/com/mikebull94/rsapi/bestiary/Beast.java:90-95 | the same once-only rule for the poisonous flag |
| RsapiBeast.Builder.LifePoints | src/main/java/com/mikebull94/rsapi/bestiary/Beast.java:105-111 | IllegalStateException when built or already set; IllegalArgumentException unless positive; otherwise only this stat changes |
| RsapiBeast.Builder.CombatLevel | src/main/java/com/mikebull94/rsapi/bestiary/Beast.java:113-119 | the same once-only, positive rule for the combat level |
| RsapiBeast.Builder.DefenceLevel | src/main/java/com/mikebull94/rsapi/bestiary/Beast.java:121-127 | the same rule for the defence level |
| RsapiBeast.Builder.AttackLevel | src/main/java/com/mikebull94/rsapi/bestiary/Beast.java:129-135 | the same rule for the attack level |
| RsapiBeast.Builder.MagicLevel | src/main/java/com/mikebull94/rsapi/bestiary/Beast.java:137-143 | the same rule for the magic level |
| RsapiBeast.Builder.RangedLevel | src/main/java/com/mikebull94/rsapi/bestiary/Beast.java:145-151 | the same rule for the ranged level |
| RsapiBeast.Builder.RequiredSlayerLevel | src/main/java/com/mikebull94/rsapi/bestiary/Beast.java:153-159 | the same rule for the required slayer level |
| RsapiBeast.Builder.Size | src/main/java/com/mikebull94/rsapi/bestiary/Beast.java:161-167 | IllegalStateException unless the size is still 1; IllegalArgumentException unless above 1; otherwise only the size changes |
| RsapiBeast.Builder.MembersOnly | src/main/java/com/mikebull94/rsapi/bestiary/Beast.java:169-174 | the same once-only rule for the members flag |
| RsapiBeast.Builder.SlayerCategory | src/main/java/com/mikebull94/rsapi/bestiary/Beast.java:176-182 | IllegalStateException when built or already set; IllegalArgumentException for an empty category; otherwise only the category is set |
| RsapiBeast.Builder.Area | src/main/java/com/mikebull94/rsapi/bestiary/Beast.java:184-189 | IllegalStateException once built; IllegalArgumentException for an empty area; otherwise the area joins the set |
| RsapiBeast.Builder.Animation | src/main/java/com/mikebull94/rsapi/bestiary/Beast.java:191-197 | IllegalStateException once built; IllegalArgumentException for an empty name or a non-positive id; otherwise the map entry is put, replacing any earlier one |
| RsapiBeast.Builder.Build | src/main/java/com/mikebull94/rsapi/bestiary/Beast.java:199-226 | the builder is then built; a second build is an IllegalStateException; the first builds the beast of the current values, listing every area once |
| RsapiItem.NewItem | src/main/java/com/mikebull94/rsapi/grandexchange/Item.java:240-255 | the constructor succeeds exactly for a non-negative id with both price trends present; IllegalArgumentException for a negative id, otherwise NullPointerException for a missing trend |
| RsapiItem.ConstructedItemKeepsSettings | src/main/java/com/mikebull94/rsapi/grandexchange/Item.java:240-255 | a constructed item carries every builder value over; a price change is null exactly when it was never set |
| RsapiItem.NewItemInjective | src/main/java/com/mikebull94/rsapi/grandexchange/Item.java:240-255 | two constructions give equal items exactly when their ids and values agree |
| RsapiItem.EqualsIsEquivalence | src/main/java/com/mikebull94/rsapi/grandexchange/Item.java:362-383 | `equals` is reflexive, symmetric and transitive, as `Object.equals` requires |
| RsapiItem.Equals | src/main/java/com/mikebull94/rsapi/grandexchange/Item.java:362-383 | `equals` holds exactly when the two items are the same value |
| RsapiItem.Builder.constructor | src/main/java/com/mikebull94/rsapi/grandexchange/Item.java:32-34 | a new builder is not built, keeps its id and holds the default values |
| RsapiItem.Builder.Icon | src/main/java/com/mikebull94/rsapi/grandexchange/Item.java:36-42 | IllegalStateException when built or already set; IllegalArgumentException for an empty icon; otherwise only the icon changes |
| RsapiItem.Builder.LargeIcon | src/main/java/com/mikebull94/rsapi/grandexchange/Item.java:44-50 | the same once-only, non-empty rule for the large icon |
| RsapiItem.Builder.Type | src/main/java/com/mikebull94/rsapi/grandexchange/Item.java:52-58 | the same rule for the type |
| RsapiItem.Builder.TypeIcon | src/main/java/com/mikebull94/rsapi/grandexchange/Item.java:60-66 | the same rule for the type icon |
| RsapiItem.Builder.Name | src/main/java/com/mikebull94/rsapi/grandexchange/Item.java:68-74 | the same rule for the name |
| RsapiItem.Builder.Description | src/main/java/com/mikebull94/rsapi/grandexchange/Item.java:76-82 | the same rule for the description |
| RsapiItem.Builder.CurrentPrice | src/main/java/com/mikebull94/rsapi/grandexchange/Item.java:84-90 | IllegalStateException when built or already set; NullPointerException for null; otherwise only the current trend is set |
| RsapiItem.Builder.TodaysPrice | src/main/java/com/mikebull94/rsapi/grandexchange/Item.java:92-98 | the same once-only, non-null rule for today's trend |
| RsapiItem.Builder.MembersOnly | src/main/java/com/mikebull94/rsapi/grandexchange/Item.java:100-105 | IllegalStateException when built or already set; otherwise only the flag is set |
| RsapiItem.Builder.PriceChange30Days | src/main/java/com/mikebull94/rsapi/grandexchange/Item.java:107-113 | the same once-only, non-null rule for the 30-day change |
| RsapiItem.Builder.PriceChange90Days | src/main/java/com/mikebull94/rsapi/grandexchange/Item.java:115-121 | the same rule for the 90-day change |
| RsapiItem.Builder.PriceChange180Days | src/main/java/com/mikebull94/rsapi/grandexchange/Item.java:123-129 | the same rule for the 180-day change |
| RsapiItem.Builder.Build | src/main/java/com/mikebull94/rsapi/grandexchange/Item.java:131-150 | the builder is built from then on, even when construction fails; a second build is an IllegalStateException; the first gives exactly the constructor's outcome on the current values |
| RsapiGrandExchange.CategoriesDistinct | src/main/java/com/mikebull94/rsapi/grandexchange/GrandExchange.java:47-86 | there are 38 categories and no name repeats |
| RsapiGrandExchange.KnownCategoryIds | src/main/java/com/mikebull94/rsapi/grandexchange/GrandExchange.java:47-86 | "Potions" is category 26 and "Ammo" category 1 |
| RsapiGrandExchange.CategoryUrl | src/main/java/com/mikebull94/rsapi/grandexchange/GrandExchange.java:108-111 | the URL exists exactly for an id inside the list and starts with the category address and '?'; otherwise IndexOutOfBoundsException |
| RsapiGrandExchange.Category | src/main/java/com/mikebull94/rsapi/grandexchange/GrandExchange.java:108-111 | `category(int)` fetches exactly for 0 <= id < 38, and the answer is what fetching the category URL gives; otherwise IndexOutOfBoundsException |
| RsapiGrandExchange.CategoryQueryReadBack | src/main/java/com/mikebull94/rsapi/grandexchange/GrandExchange.java:110 | the category URL's query cuts at '=' into "category" and the id's numeral, which parses back to the id |
| RsapiGrandExchange.CategoryNamed | src/main/java/com/mikebull94/rsapi/grandexchange/GrandExchange.java:120-123 | an unknown name is an IndexOutOfBoundsException |
| RsapiGrandExchange.CategoryNameResolves | src/main/java/com/mikebull94/rsapi/grandexchange/GrandExchange.java:120-123 | a listed name asks for the category of its position; "Potions" asks for category 26 |
| RsapiGrandExchange.AlphaCases | src/main/java/com/mikebull94/rsapi/grandexchange/GrandExchange.java:138-143 | an int numeral prefix is sent as '%' and its value; a prefix not starting with a digit or sign is sent as is; "007" becomes "%7" |
| RsapiGrandExchange.Alpha | src/main/java/com/mikebull94/rsapi/grandexchange/GrandExchange.java:138-143 | a prefix that is not an int numeral is sent as is; an int numeral is sent as '%' and a numeral that parses to the same value |
| RsapiGrandExchange.ItemsUrl | src/main/java/com/mikebull94/rsapi/grandexchange/GrandExchange.java:134-146 | IndexOutOfBoundsException for a bad id, checked first; then IllegalArgumentException for an empty prefix; otherwise the items address, '?' and the query of the id, the alpha value and the page |
| RsapiGrandExchange.CategoryPrices | src/main/java/com/mikebull94/rsapi/grandexchange/GrandExchange.java:134-146 | `categoryPrices(int, …)` fetches exactly when the items URL exists, and the answer is what fetching that URL gives; otherwise it raises the URL's fault |
| RsapiGrandExchange.ItemsQueryReadBack | src/main/java/com/mikebull94/rsapi/grandexchange/GrandExchange.java:138-145 | for a prefix without '&' or '=', the items URL's query cuts at '&' into the category, alpha and page parameters in that order, each cutting at '=' into its name and the value sent |
| RsapiGrandExchange.ItemsQuerySplits | src/main/java/com/mikebull94/rsapi/grandexchange/GrandExchange.java:145 | a query of delimiter-free values cuts back into its three name=value parameters |
| RsapiGrandExchange.ItemsQueryJoined | src/main/java/com/mikebull94/rsapi/grandexchange/GrandExchange.java:145 | the query is its three name=value parameters joined with '&' |
| RsapiGrandExchange.CategoryPricesNamed | src/main/java/com/mikebull94/rsapi/grandexchange/GrandExchange.java:157-161 | the prefix is checked before the name is resolved; then an unknown name is an IndexOutOfBoundsException |
| RsapiGrandExchange.EmptyPrefixOrder | src/main/java/com/mikebull94/rsapi/grandexchange/GrandExchange.java:134-161 | with an empty prefix and a bad category, the id overload reports the index and the name overload the prefix |
| RsapiGrandExchange.AmmoUrl | src/main/java/com/mikebull94/rsapi/grandexchange/GrandExchange.java:134-146 | category 1, prefix "a", page 1 gives the URL ending "?category=1&alpha=a&page=1" |
| RsapiGrandExchange.AmmoQuery | src/main/java/com/mikebull94/rsapi/grandexchange/GrandExchange.java:145 | category 1, alpha "a" and page 1 give the query "?category=1&alpha=a&page=1" |
| RsapiGrandExchange.AmmoPrices | src/main/java/com/mikebull94/rsapi/grandexchange/GrandExchange.java:157-161 | ("Ammo", "a", 1) fetches that URL |
| RsapiGraphingData.DayOfContains | src/main/java/com/mikebull94/rsapi/grandexchange/GraphingData.java:71-72 | the UTC date of an instant starts at or before it and ends after it |
| RsapiGraphingData.EpochMilli | src/main/java/com/mikebull94/rsapi/grandexchange/GraphingData.java:25-27 | the start of a date in millis exists exactly when it fits a long (else ArithmeticException), lies on a midnight and maps back to the date |
| RsapiGraphingData.CodeInjective | src/main/java/com/mikebull94/rsapi/grandexchange/GraphingData.java:25-27 | different dates have different datecodes |
| RsapiGraphingData.Datecode | src/main/java/com/mikebull94/rsapi/grandexchange/GraphingData.java:47-56 | a datecode exists exactly when the date's start fits a long, and is the date's code |
| RsapiGraphingData.Datecoded | src/main/java/com/mikebull94/rsapi/grandexchange/GraphingData.java:47-56 | the loop's puts exist exactly when every date fits, and pair each date's code with its price in order |
| RsapiGraphingData.LocalDates | src/main/java/com/mikebull94/rsapi/grandexchange/GraphingData.java:45-60 | `fromLocalDates` fails only with ArithmeticException or IllegalArgumentException; on success each map pairs every date's code with its price, in order, with no code repeated |
| RsapiGraphingData.DatecodeLoop | src/main/java/com/mikebull94/rsapi/grandexchange/GraphingData.java:47-56 | the loop computes exactly the coded entries |
| RsapiGraphingData.FromLocalDates | src/main/java/com/mikebull94/rsapi/grandexchange/GraphingData.java:45-60 | `fromLocalDates` computes exactly the specified record |
| RsapiGraphingData.CodedDistinct | src/main/java/com/mikebull94/rsapi/grandexchange/GraphingData.java:47-58 | coded keys repeat exactly when the dates repeat |
| RsapiGraphingData.LocalDatesSucceed | src/main/java/com/mikebull94/rsapi/grandexchange/GraphingData.java:45-60 | for maps without repeated dates, `fromLocalDates` fails only on a date beyond the long range |
| RsapiGraphingData.GetCoded | src/main/java/com/mikebull94/rsapi/grandexchange/GraphingData.java:113-116 | looking a date's code up in coded entries finds what the date finds in the original |
| RsapiGraphingData.PriceOn | src/main/java/com/mikebull94/rsapi/grandexchange/GraphingData.java:113-116 | a lookup succeeds exactly when the date's start fits a long (else ArithmeticException); a price found is listed under the date's code, and no price means the code is absent |
| RsapiGraphingData.GetDailyPrice | src/main/java/com/mikebull94/rsapi/grandexchange/GraphingData.java:113-116 | `getDailyPrice` raises ArithmeticException exactly for a date beyond the long range; otherwise it finds a price exactly when the daily map lists one under the date's code |
| RsapiGraphingData.GetAveragePrice | src/main/java/com/mikebull94/rsapi/grandexchange/GraphingData.java:131-134 | `getAveragePrice` raises ArithmeticException exactly for a date beyond the long range; otherwise it finds a price exactly when the average map lists one under the date's code |
| RsapiGraphingData.LookupRoundTrip | src/main/java/com/mikebull94/rsapi/grandexchange/GraphingData.java:45-60 | on data made by `fromLocalDates`, `getDailyPrice` and `getAveragePrice` give back the input's price for every date |
| RsapiGraphingData.LookupsIndependent | src/main/java/com/mikebull94/rsapi/grandexchange/GraphingData.java:113-134 | each point lookup reads its own map only |
| RsapiGraphingData.ByDate | src/main/java/com/mikebull94/rsapi/grandexchange/GraphingData.java:67-75 | succeeds exactly when every key parses as a long (else NumberFormatException) and takes each key to its UTC date, keeping order and price |
| RsapiGraphingData.GetPrices | src/main/java/com/mikebull94/rsapi/grandexchange/GraphingData.java:67-78 | the loop computes exactly the specified date map |
| RsapiGraphingData.GetDailyPrices | src/main/java/com/mikebull94/rsapi/grandexchange/GraphingData.java:104-106 | `getDailyPrices` is `getPrices` of the daily map |
| RsapiGraphingData.GetAveragePrices | src/main/java/com/mikebull94/rsapi/grandexchange/GraphingData.java:122-124 | `getAveragePrices` is `getPrices` of the average map |
| RsapiGraphingData.ByDateOfCoded | src/main/java/com/mikebull94/rsapi/grandexchange/GraphingData.java:67-75 | reading datecodes back gives the dates they were made from |
| RsapiGraphingData.PricesRoundTrip | src/main/java/com/mikebull94/rsapi/grandexchange/GraphingData.java:45-78 | on data made by `fromLocalDates`, both price listings give back the input maps |
| RsapiGraphingData.PointLookupListed | src/main/java/com/mikebull94/rsapi/grandexchange/GraphingData.java:67-116 | a price found by date is listed under that date |
| RsapiGraphingData.NonMidnightDatecode | src/main/java/com/mikebull94/rsapi/grandexchange/GraphingData.java:67-116 | a datecode off midnight is listed under its date but not found by a lookup of that date |
| RsapiGraphingData.SameDateDatecodes | src/main/java/com/mikebull94/rsapi/grandexchange/GraphingData.java:67-78 | two datecodes on the same date make the listing fail with IllegalArgumentException |
| RsapiGraphingData.EqualsByLookup | src/main/java/com/mikebull94/rsapi/grandexchange/GraphingData.java:136-147 | records are equal exactly when both maps look every key up alike, and equal records answer every lookup alike |
| RsapiGraphingData.Equals | src/main/java/com/mikebull94/rsapi/grandexchange/GraphingData.java:136-147 | `equals` holds exactly when both the daily and the average maps look every key up alike |
| ApiGraphingData.GetDailyValue | ge/src/main/java/com/runescape/api/ge/model/GraphingData.java:79-81 | ArithmeticException exactly for a date beyond the long range; a found price is the one stored under the date's code, and none means the code is absent |
| ApiGraphingData.GetAverageValue | ge/src/main/java/com/runescape/api/ge/model/GraphingData.java:96-98 | the same lookup in the average map |
| ApiGraphingData.GetDailyPrices | ge/src/main/java/com/runescape/api/ge/model/GraphingData.java:54-72 | the listing is the date map of the daily datecodes |
| ApiGraphingData.GetAveragePrices | ge/src/main/java/com/runescape/api/ge/model/GraphingData.java:54-89 | the listing is the date map of the average datecodes |
| ApiGraphingData.ValuesListed | ge/src/main/java/com/runescape/api/ge/model/GraphingData.java:54-98 | a value found by date is listed under that date |

## Left out

- The HTTP client, Gson decoding and CSV tokenising are not modelled: the fetched rows or the decoded values are parameters. `IOException` is not modelled.
- `java.time` is not modelled: a `LocalDate` is its epoch day, and the UTC conversion is floor division by 86,400,000.
- Beast experience is a `double`: the `experience` setter, its field and `getExperience` are left out.
- Number parsing accepts ASCII digits only. Java's `parseInt` also accepts other Unicode digits.
- `String.format` is modelled only for the `%d`, `%s` and `%c` conversions the bestiary uses, with the locale's ASCII digits.
- `toString`, `hashCode`, and the null checks with their NullPointerException on a null argument are not modelled; a Java null is `None` where the source tests for it.
- The plain fetch pass-throughs carry no logic beyond a URL: `beastData`, `areaNames`, `graphingData`, `itemPriceInformation`, `search()`. So do the `Category` and `CategoryPrices` records, which are a type parameter of the fetch.
- `Bestiary`, `Hiscores` and `GrandExchange` equality compares only the client and is not modelled.
- `Search.equals` and `Search.hashCode` are not modelled: they compare the filter lists, whose elements are lambdas compared by identity.
- `RsapiBeast.Builder.Build`: the order of `getAreas` comes from a `HashSet` and is unspecified. The contract states that the areas are listed once each, not their order.
- `fromDatecodes` and the `com.runescape.api` `GraphingData` constructor store their maps unchanged; they are the `GraphingData` datatype constructor.
- src/main/java/com/github/michaelbull/rs/hiscores/HiscoreActivity.java is not part of this model: `RsHiscores` decodes activity rows with `RsapiHiscoreActivity`. That revision's `Player` and `ItemPriceInformation` are not modelled either.
- The `com.runescape.api` `ClanMate` is modelled only as far as `clanInformation` reads it.
- Search filters run one after another, and the first failed query ends `results()`. Concurrency and the lazy view behind `Maps.filterKeys` are not modelled, since every filter's map is fetched before it is applied.
