# Bangumi episode resolution, modelled in Dafny

This project models how the Jellyfin Bangumi plugin decides which Bangumi episode a
media file is. It covers:

- the **basic episode parser**. It reads the subject id from the folder's override file,
  the parent Season or the series. It takes the episode index from the library, or guesses
  it again from the file name through the noise and number regular expressions. It
  subtracts the override offset and accepts a cached episode id, or searches the
  subject's episode list. That search means a single candidate, a re-guess against the
  list's largest order, a pick by order with the lowest type first, and one untyped retry
  for a typed search that misses.
- the **Anitomy episode parser**. It works out the file's type from Anitomy's tokens or
  the folder's name, and the index from Anitomy's episode number or the file's size,
  moved by the offset. Then come `rule01` (the episode with that order, an order-1
  fallback for index 0, and the alternative number) and `rule02`, the walk from season
  to season along the sequel relations. That walk renumbers a season whose numbering
  restarts at 1 and matches by index or alternative number. A made-up special episode
  is returned when no rule places the file.
- the **episode provider**. It turns the resolved episode into the library's metadata:
  the provider id, production year, name, original title, index plus offset and
  overview. It places the episode in a season, and files a special under season 0 with
  names from its subject and an airs-before or airs-after number.
- the **Episode and Subject records**: names under the translation preference, the
  air date and production year, popular tags, aliases from the infobox, and the sort of
  search results by similarity.

The model is made of Dafny values. Episodes and subjects are datatypes. The Bangumi
API, the library manager, Anitomy's tokenizer, the type mapping, `HtmlDecode`,
`ToLower` and `Fuzz.Ratio` are parameters. Exceptions are values of `Result`. Each
procedure of the source that works step by step is a `method` proved equal to a
specification function, and the source's promises are stated as lemmas about those
functions.

Two behaviours are reproduced as written.

- In `GetEpisodeIndex`, the offset is added for every file that has a Bangumi type,
  Special included (AnitomyEpisodeParser.cs:318), although the comment above that
  condition says otherwise. `OffsetOnlyWhenTyped` states it.
- `rule02` follows sequels with no guard against a cycle. `SequelCycleNeverEnds` shows a
  pair of subjects that send the walk back and forth for as long as it may run.

## Model

| member | source | states |
|---|---|---|
| EpisodeModel.EpisodeType.Rank | Jellyfin.Plugin.Bangumi/Model/Episode.cs:14 | the enum value of the episode's type, one of six |
| EpisodeModel.RankInjective | Jellyfin.Plugin.Bangumi/Model/Episode.cs:14 | distinct types have distinct ranks, so OrderBy(Type) groups each type together |
| EpisodeModel.Episode.OriginalName | Jellyfin.Plugin.Bangumi/Model/Episode.cs:17 | the original name is the HTML-decoded raw name |
| EpisodeModel.Episode.ChineseName | Jellyfin.Plugin.Bangumi/Model/Episode.cs:23 | the Chinese name is null exactly when the raw one is, and is otherwise its decoded form |
| EpisodeModel.Episode.GetName | Jellyfin.Plugin.Bangumi/Model/Episode.cs:47-55 | the Chinese name under the Chinese preference when it is neither null nor empty; the original name in every other case, a null configuration included |
| EpisodeModel.Episode.ToString | Jellyfin.Plugin.Bangumi/Model/Episode.cs:57-60 | the description starts with the fixed prefix, ends in '>', and ends with ": " and the original name |
| EpisodeModel.NewEpisode | Jellyfin.Plugin.Bangumi/Model/Episode.cs:9-45 | a new episode has zero numbers, type Normal, empty original name and air date, and null optional fields |
| EpisodeModel.DescriptionNamesId | Jellyfin.Plugin.Bangumi/Model/Episode.cs:57-60 | the episode id can be read back from the description |
| Configuration.PreferredName | Jellyfin.Plugin.Bangumi/Model/Subject.cs:105-113 | the name choice shared by episodes and subjects: the Chinese name under the Chinese preference unless it is null or empty, else the original name |
| SubjectModel.Subject.AirDate | Jellyfin.Plugin.Bangumi/Model/Subject.cs:37 | `date` when present, else `air_date`; null only when both are |
| SubjectModel.Subject.ProductionYear | Jellyfin.Plugin.Bangumi/Model/Subject.cs:40 | present exactly when the air date has at least four characters, and is then its first four |
| SubjectModel.Subject.GetName | Jellyfin.Plugin.Bangumi/Model/Subject.cs:105-113 | the same preference rule as for episodes |
| SubjectModel.CheckedSum | Jellyfin.Plugin.Bangumi/Model/Subject.cs:64 | the checked 32-bit sum of the tag counts fails only with OverflowException |
| SubjectModel.CheckedSumIsSum | Jellyfin.Plugin.Bangumi/Model/Subject.cs:64 | a checked sum that succeeds is the exact sum |
| SubjectModel.DivTruncate | Jellyfin.Plugin.Bangumi/Model/Subject.cs:64 | C# integer division truncates toward zero, negative totals included |
| SubjectModel.NamesAtLeastMembers | Jellyfin.Plugin.Bangumi/Model/Subject.cs:65 | a name is kept exactly when some tag carrying it reaches the baseline |
| SubjectModel.PopularTags | Jellyfin.Plugin.Bangumi/Model/Subject.cs:60-67 | fails exactly when the sum overflows; otherwise the names, in order, of the tags whose count is at least the total over 25 |
| SubjectModel.MostUsed | Jellyfin.Plugin.Bangumi/Model/Subject.cs:60-67 | a tag whose count no other tag exceeds |
| SubjectModel.PopularTagsNonEmpty | Jellyfin.Plugin.Bangumi/Model/Subject.cs:60-67 | with 1 to 25 tags of non-negative count, at least one tag is popular |
| SubjectModel.PopularTagsCanBeEmpty | Jellyfin.Plugin.Bangumi/Model/Subject.cs:60-67 | with 50 tags used once each, no tag is popular |
| SubjectModel.NamesAtLeastNone | Jellyfin.Plugin.Bangumi/Model/Subject.cs:65 | no tag below the baseline is kept |
| SubjectModel.FirstAliasItem | Jellyfin.Plugin.Bangumi/Model/Subject.cs:75-77 | the position of the first infobox entry that is the alias key with an array value, with none before it; none when no entry is |
| SubjectModel.AliasValueOf | Jellyfin.Plugin.Bangumi/Model/Subject.cs:80 | reading "v" succeeds exactly on an object whose "v" is a string or null |
| SubjectModel.AliasValues | Jellyfin.Plugin.Bangumi/Model/Subject.cs:79-82 | the aliases kept are never empty, and there are no more of them than array elements |
| SubjectModel.Alias | Jellyfin.Plugin.Bangumi/Model/Subject.cs:71-92 | the loop returns the values of the first alias entry, or nothing |
| SubjectModel.FirstAliasItemIs | Jellyfin.Plugin.Bangumi/Model/Subject.cs:75-88 | the entry read is the first alias entry, whatever follows it |
| SubjectModel.AliasValuesOfStrings | Jellyfin.Plugin.Bangumi/Model/Subject.cs:79-82 | over string values, the aliases are exactly the non-empty ones |
| SubjectModel.MaxOf | Jellyfin.Plugin.Bangumi/Model/Subject.cs:127 | the largest alias score is attained and bounds every score |
| SubjectModel.Score | Jellyfin.Plugin.Bangumi/Model/Subject.cs:123-127 | fails exactly when Alias() throws; otherwise at least the Chinese-name, original-name and every alias ratio, and equal to one of them, or int.MinValue when there are no aliases |
| SubjectModel.Scores | Jellyfin.Plugin.Bangumi/Model/Subject.cs:121-129 | one score per subject, in list order |
| SubjectModel.ScoresFirstError | Jellyfin.Plugin.Bangumi/Model/Subject.cs:121-129 | the first subject whose aliases throw decides the exception |
| SubjectModel.RanksBeforeOrder | Jellyfin.Plugin.Bangumi/Model/Subject.cs:131 | the descending order by score, ties in input order, is transitive and total |
| SubjectModel.Insert | Jellyfin.Plugin.Bangumi/Model/Subject.cs:131 | inserting into a sorted sequence keeps it sorted and adds exactly the entry |
| SubjectModel.SortRanked | Jellyfin.Plugin.Bangumi/Model/Subject.cs:131 | a sorted permutation of the ranked scores |
| SubjectModel.RankedScores | Jellyfin.Plugin.Bangumi/Model/Subject.cs:128 | each score paired with its subject's position |
| SubjectModel.DescendingOrderIsPermutation | Jellyfin.Plugin.Bangumi/Model/Subject.cs:131 | OrderByDescending visits every position once, by non-increasing score, equal scores in input order |
| SubjectModel.SortBySimilarity | Jellyfin.Plugin.Bangumi/Model/Subject.cs:115-132 | the method returns the subjects most similar first, stably, against the lower-cased keyword |
| Collaborators.BangumiId | Jellyfin.Plugin.Bangumi/Parser/BasicParser/BasicEpisodeParser.cs:61 | the Bangumi entry of a provider-id dictionary; null when the dictionary is null or lacks it |
| FilePath.FileName | Jellyfin.Plugin.Bangumi/Parser/BasicParser/BasicEpisodeParser.cs:45 | Path.GetFileName holds no separator and follows the last one |
| FilePath.FileNameIsSuffix | Jellyfin.Plugin.Bangumi/Parser/BasicParser/BasicEpisodeParser.cs:45 | the file name is the end of the path |
| FilePath.DirectoryName | Jellyfin.Plugin.Bangumi/Parser/BasicParser/BasicEpisodeParser.cs:214 | the directory part is null for the empty path and the root, and otherwise a proper prefix of the path (repeated separators are not collapsed; see Left out) |
| FilePath.FileNameOfJoin | Jellyfin.Plugin.Bangumi/Parser/BasicParser/BasicEpisodeParser.cs:45 | the file name of "dir/name" is name |
| FilePath.DirectoryOfJoin | Jellyfin.Plugin.Bangumi/Parser/BasicParser/BasicEpisodeParser.cs:214 | the directory of "q/f" is q |
| FilePath.FolderNameOfNested | Jellyfin.Plugin.Bangumi/Parser/BasicParser/BasicEpisodeParser.cs:213-215 | a file in "dir/name/" lies in the folder called name |
| Text.TrimWhere | Jellyfin.Plugin.Bangumi/Parser/BasicParser/BasicEpisodeParser.cs:271 | string.Trim(chars) is empty exactly when every character is trimmed, and otherwise begins and ends with a kept character |
| Text.ParseInt32 | Jellyfin.Plugin.Bangumi/Parser/BasicParser/BasicEpisodeParser.cs:54 | int.TryParse yields only values in the 32-bit range |
| Text.IntToStringRoundTrip | Jellyfin.Plugin.Bangumi/Providers/EpisodeProvider.cs:42 | int.TryParse reads back every 32-bit integer's ToString |
| Text.ParseFractionalNumber | Jellyfin.Plugin.Bangumi/Parser/BasicParser/BasicEpisodeParser.cs:271 | double.TryParse reads "n.ds" as n plus the fraction, so half episodes keep their order |
| Text.ParseDouble | Jellyfin.Plugin.Bangumi/Parser/BasicParser/BasicEpisodeParser.cs:256 | double parsing gives a negative value only for text that starts with a minus sign |
| Text.ParseWholeNumber | Jellyfin.Plugin.Bangumi/Parser/BasicParser/BasicEpisodeParser.cs:271 | double parsing reads the digits of a whole number as that number |
| Text.OrdinalLess | Jellyfin.Plugin.Bangumi/Providers/EpisodeProvider.cs:86 | no air date sorts before itself under the ordinal comparison |
| Text.OrdinalLessAsymmetric | Jellyfin.Plugin.Bangumi/Providers/EpisodeProvider.cs:86 | the ordinal comparison never puts two dates before each other |
| EpisodeLists.OfType | Jellyfin.Plugin.Bangumi/Parser/BasicParser/BasicEpisodeParser.cs:137 | the episodes of one type, all of that type |
| EpisodeLists.FirstWithOrder | Jellyfin.Plugin.Bangumi/Parser/BasicParser/BasicEpisodeParser.cs:137 | FirstOrDefault by order is none exactly when no episode has the order, and otherwise the first that does |
| EpisodeLists.BestMatchFrom | Jellyfin.Plugin.Bangumi/Parser/BasicParser/BasicEpisodeParser.cs:137 | the reference search: an episode with the order, of the lowest type rank |
| EpisodeLists.PickFromRuns | Jellyfin.Plugin.Bangumi/Parser/BasicParser/BasicEpisodeParser.cs:137 | searching the type runs in rank order finds the reference best match |
| EpisodeLists.PickByOrderIsBestMatch | Jellyfin.Plugin.Bangumi/Parser/BasicParser/BasicEpisodeParser.cs:137 | OrderBy(Type).FirstOrDefault(order) finds nothing exactly when no episode has the order; otherwise an episode with it of the lowest type, first of its type in list order |
| EpisodeLists.PickIsInList | Jellyfin.Plugin.Bangumi/Parser/Anitomy/AnitomyEpisodeParser.cs:120 | the pick is an episode of the list with the requested order |
| EpisodeLists.SortByTypeIsSortedPermutation | Jellyfin.Plugin.Bangumi/Parser/Anitomy/AnitomyEpisodeParser.cs:120 | OrderBy(Type) is a permutation sorted by type |
| EpisodeLists.MaxOfOrdersIsMaximum | Jellyfin.Plugin.Bangumi/Parser/BasicParser/BasicEpisodeParser.cs:133 | the largest order is attained and bounds every order |
| EpisodeLists.MaxOrder | Jellyfin.Plugin.Bangumi/Parser/BasicParser/BasicEpisodeParser.cs:133 | Max throws InvalidOperationException exactly on an empty list |
| EpisodeLists.MaxOrderIsMaximum | Jellyfin.Plugin.Bangumi/Parser/BasicParser/BasicEpisodeParser.cs:133 | what Max returns is an episode's order and no order exceeds it |
| EpisodeLists.First | Jellyfin.Plugin.Bangumi/Parser/BasicParser/BasicEpisodeParser.cs:126 | First throws InvalidOperationException exactly on an empty list, else gives the head |
| EpisodeLists.Last | Jellyfin.Plugin.Bangumi/Parser/Anitomy/AnitomyEpisodeParser.cs:162 | Last throws InvalidOperationException exactly on an empty list, else gives the last element |
| EpisodeLists.ShiftOrders | Jellyfin.Plugin.Bangumi/Parser/Anitomy/AnitomyEpisodeParser.cs:198 | the ForEach moves every episode's order by the count and changes nothing else |
| EpisodeLists.ShiftedOfType | Jellyfin.Plugin.Bangumi/Parser/Anitomy/AnitomyEpisodeParser.cs:198 | renumbering keeps every type |
| EpisodeLists.ShiftedPick | Jellyfin.Plugin.Bangumi/Parser/Anitomy/AnitomyEpisodeParser.cs:198-206 | after renumbering by d, looking up v + d finds what v found before, moved by d |
| FileNamePatterns.RunLength | Jellyfin.Plugin.Bangumi/Parser/BasicParser/BasicEpisodeParser.cs:180-189 | a greedy character-class run stops at the first character outside the class |
| FileNamePatterns.NoiseMatchAt | Jellyfin.Plugin.Bangumi/Parser/BasicParser/BasicEpisodeParser.cs:166-178 | no noise pattern matches the empty string, and a match stays inside the name |
| FileNamePatterns.FirstNoiseMatch | Jellyfin.Plugin.Bangumi/Parser/BasicParser/BasicEpisodeParser.cs:262 | the leftmost match of a noise pattern; none exactly when it matches nowhere |
| FileNamePatterns.RemoveNoiseShortens | Jellyfin.Plugin.Bangumi/Parser/BasicParser/BasicEpisodeParser.cs:260-265 | Replace with "" leaves a name alone when the pattern does not match, and shortens it when it does |
| FileNamePatterns.StripNoiseTokens | Jellyfin.Plugin.Bangumi/Parser/BasicParser/BasicEpisodeParser.cs:260-265 | the noise loop removes every noise pattern, in table order, and never lengthens the name |
| FileNamePatterns.NumberCaptureAt | Jellyfin.Plugin.Bangumi/Parser/BasicParser/BasicEpisodeParser.cs:180-189 | group 1 of a number pattern is a non-empty run of digits and dots |
| FileNamePatterns.FirstCaptureNoneMeansNoMatch | Jellyfin.Plugin.Bangumi/Parser/BasicParser/BasicEpisodeParser.cs:269-271 | no capture means the number pattern matches nowhere |
| FileNamePatterns.FirstCaptureIsLeftmost | Jellyfin.Plugin.Bangumi/Parser/BasicParser/BasicEpisodeParser.cs:271 | Regex.Match's group 1 comes from the leftmost match position |
| FileNamePatterns.FirstSomeIsFirst | Jellyfin.Plugin.Bangumi/Parser/BasicParser/BasicEpisodeParser.cs:267-276 | the number loop takes the first pattern that yields a number, and yields none only when none does |
| FileNamePatterns.PatternNumbers | Jellyfin.Plugin.Bangumi/Parser/BasicParser/BasicEpisodeParser.cs:267-276 | one attempt per number pattern, in table order |
| FileNamePatterns.OpeningMarker | Jellyfin.Plugin.Bangumi/Parser/BasicParser/BasicEpisodeParser.cs:199-200 | "OP" (so "NCOP") followed by the end or a non-letter makes an opening anywhere in the name |
| FileNamePatterns.EndingMarker | Jellyfin.Plugin.Bangumi/Parser/BasicParser/BasicEpisodeParser.cs:202-203 | "ED" (so "NCED") followed by the end or a non-letter makes an ending |
| FileNamePatterns.SpecialMarker | Jellyfin.Plugin.Bangumi/Parser/BasicParser/BasicEpisodeParser.cs:205-206 | SP, SPs, Special, Specials, OVA or OAD followed by the end or a non-letter makes a special |
| FileNamePatterns.PreviewMarker | Jellyfin.Plugin.Bangumi/Parser/BasicParser/BasicEpisodeParser.cs:208-209 | "PV" after a non-word character and before the end or a non-letter makes a preview |
| FileNamePatterns.LowerCaseNameIsNoSpecial | Jellyfin.Plugin.Bangumi/Parser/BasicParser/BasicEpisodeParser.cs:191-209 | the four special patterns are case-sensitive: a name without upper-case ASCII letters matches none |
| BasicEpisodeParser.IsSpecial | Jellyfin.Plugin.Bangumi/Parser/BasicParser/BasicEpisodeParser.cs:211-218 | the file's own name matching the special pattern always makes it special; the folder's name counts only when checkParent is set |
| BasicEpisodeParser.IsSpecialOfNestedPath | Jellyfin.Plugin.Bangumi/Parser/BasicParser/BasicEpisodeParser.cs:211-218 | for "dir/folder/name", only the name and, with checkParent, the folder are looked at |
| BasicEpisodeParser.GuessEpisodeTypeFromFileName | Jellyfin.Plugin.Bangumi/Parser/BasicParser/BasicEpisodeParser.cs:222-241 | the stripped name is Opening when it matches the opening pattern, Ending when only the ending one, null exactly when no special pattern matches, and always one of the four special types otherwise |
| BasicEpisodeParser.ReadEpisodeNumber | Jellyfin.Plugin.Bangumi/Parser/BasicParser/BasicEpisodeParser.cs:267-276 | the loop returns the file name's number: the first pattern whose trimmed capture parses |
| BasicEpisodeParser.GuessEpisodeNumber | Jellyfin.Plugin.Bangumi/Parser/BasicParser/BasicEpisodeParser.cs:243-306 | the method returns the guess: Anitomy's number under AlwaysGetEpisodeByAnitomySharp, else the file name's number reconciled with the current index |
| BasicEpisodeParser.GuessedNumber | Jellyfin.Plugin.Bangumi/Parser/BasicParser/BasicEpisodeParser.cs:243-306 | the guess fails, with FormatException, exactly when Anitomy's non-empty number is used and does not parse |
| BasicEpisodeParser.GuessedFromName | Jellyfin.Plugin.Bangumi/Parser/BasicParser/BasicEpisodeParser.cs:260-305 | outside the Anitomy branch the guess is the reconciliation of the loop's number with the current index |
| BasicEpisodeParser.GuessIsCurrentOrFromName | Jellyfin.Plugin.Bangumi/Parser/BasicParser/BasicEpisodeParser.cs:278-305 | the guess never fails there and is the current index or the name's number; the current index when the name has none |
| BasicEpisodeParser.GuessPrecedence | Jellyfin.Plugin.Bangumi/Parser/BasicParser/BasicEpisodeParser.cs:278-305 | AlwaysReplaceEpisodeNumber takes the name's number; a positive current index within max is kept; an index above max, or a non-positive one facing a positive number, yields to the name |
| BasicEpisodeParser.GuessIdempotent | Jellyfin.Plugin.Bangumi/Parser/BasicParser/BasicEpisodeParser.cs:243-306 | guessing again from the guess changes nothing |
| BasicEpisodeParser.FindSeriesId | Jellyfin.Plugin.Bangumi/Parser/BasicParser/BasicEpisodeParser.cs:50-68 | the method computes the subject id, or gives up |
| BasicEpisodeParser.SeriesId | Jellyfin.Plugin.Bangumi/Parser/BasicParser/BasicEpisodeParser.cs:50-68 | an id found is the override file's, the parent Season's or the series' |
| BasicEpisodeParser.SeriesIdPrecedence | Jellyfin.Plugin.Bangumi/Parser/BasicParser/BasicEpisodeParser.cs:50-68 | the override file's id wins when any id is found; else a non-zero parent Season id wins over the series id; no id exactly when neither yields one |
| BasicEpisodeParser.GuessIndexWhenMissing | Jellyfin.Plugin.Bangumi/Parser/BasicParser/BasicEpisodeParser.cs:70-81 | the method computes the index before the offset |
| BasicEpisodeParser.IndexBeforeOffsetRules | Jellyfin.Plugin.Bangumi/Parser/BasicParser/BasicEpisodeParser.cs:70-81 | a non-zero library index is kept unless AlwaysReplaceEpisodeNumber, which takes the name's number |
| BasicEpisodeParser.FindLookupIndex | Jellyfin.Plugin.Bangumi/Parser/BasicParser/BasicEpisodeParser.cs:70-87 | the method computes the index looked up |
| BasicEpisodeParser.LookupIndexUndoesOffset | Jellyfin.Plugin.Bangumi/Parser/BasicParser/BasicEpisodeParser.cs:83-87 | the lookup fails exactly when the guess does, and adding the offset back gives the guess |
| BasicEpisodeParser.FindCachedEpisode | Jellyfin.Plugin.Bangumi/Parser/BasicParser/BasicEpisodeParser.cs:89-112 | the method computes the accepted cached episode |
| BasicEpisodeParser.CachedEpisode | Jellyfin.Plugin.Bangumi/Parser/BasicParser/BasicEpisodeParser.cs:89-112 | what is accepted is always the episode the stored id names |
| BasicEpisodeParser.CachedEpisodePolicy | Jellyfin.Plugin.Bangumi/Parser/BasicParser/BasicEpisodeParser.cs:89-112 | the stored id's episode is accepted exactly under trust, a non-Normal type, a special path, or the same subject with order within 0.1 |
| BasicEpisodeParser.ReguessIndex | Jellyfin.Plugin.Bangumi/Parser/BasicParser/BasicEpisodeParser.cs:129-134 | the method computes the re-guessed index against the list's largest order |
| BasicEpisodeParser.ReguessedIndexFrom | Jellyfin.Plugin.Bangumi/Parser/BasicParser/BasicEpisodeParser.cs:129-134 | the re-guess is GuessEpisodeNumber in the file name's frame, moved back by the offset |
| BasicEpisodeParser.GuessAndPickInList | Jellyfin.Plugin.Bangumi/Parser/BasicParser/BasicEpisodeParser.cs:123-140 | the episode picked is one of the list's |
| BasicEpisodeParser.GuessAndPickMatchesGuess | Jellyfin.Plugin.Bangumi/Parser/BasicParser/BasicEpisodeParser.cs:129-140 | from a list of several, the pick's order plus the offset is the guess |
| BasicEpisodeParser.GuessAndPickEmptyThrows | Jellyfin.Plugin.Bangumi/Parser/BasicParser/BasicEpisodeParser.cs:129-134 | an empty list makes Max throw out of GetEpisode |
| BasicEpisodeParser.SearchEpisodeList | Jellyfin.Plugin.Bangumi/Parser/BasicParser/BasicEpisodeParser.cs:114-151 | the goto loop computes the search result |
| BasicEpisodeParser.Search | Jellyfin.Plugin.Bangumi/Parser/BasicParser/BasicEpisodeParser.cs:114-151 | the search throws only InvalidOperationException (Max on an empty list) or FormatException (Anitomy's number) |
| BasicEpisodeParser.SearchFindsCandidate | Jellyfin.Plugin.Bangumi/Parser/BasicParser/BasicEpisodeParser.cs:114-151 | what the search finds is an episode offered for the type, or for no type on the retry |
| BasicEpisodeParser.SearchRetriesOnce | Jellyfin.Plugin.Bangumi/Parser/BasicParser/BasicEpisodeParser.cs:141-151 | a typed search whose list has no episode with the index asks again with no type, once |
| BasicEpisodeParser.GetEpisode | Jellyfin.Plugin.Bangumi/Parser/BasicParser/BasicEpisodeParser.cs:40-152 | the method returns what the resolution function specifies, through the steps above |
| BasicEpisodeParser.Resolve | Jellyfin.Plugin.Bangumi/Parser/BasicParser/BasicEpisodeParser.cs:40-152 | GetEpisode throws only InvalidOperationException or FormatException; an episode it returns is the stored id's or one the API offered for the subject, for the file's type or for none |
| AnitomyEpisodeParser.GetEpisodeType | Jellyfin.Plugin.Bangumi/Parser/Anitomy/AnitomyEpisodeParser.cs:236-259 | the token mapping wins when it gives a Bangumi type; no type exactly when neither the tokens nor the found folder's name map to one |
| AnitomyEpisodeParser.NonBlank | Jellyfin.Plugin.Bangumi/Parser/Anitomy/AnitomyEpisodeParser.cs:281 | Where(!IsNullOrWhiteSpace) keeps every non-blank part and only those, and none exactly when all are blank |
| AnitomyEpisodeParser.NonBlankOfConcat | Jellyfin.Plugin.Bangumi/Parser/Anitomy/AnitomyEpisodeParser.cs:281 | Where keeps the order: filtering a concatenation concatenates the filtered halves |
| AnitomyEpisodeParser.NonBlankOfOne | Jellyfin.Plugin.Bangumi/Parser/Anitomy/AnitomyEpisodeParser.cs:281 | a single part is kept exactly when it is not blank; with NonBlankOfConcat this fixes the filter on every list |
| AnitomyEpisodeParser.TidyParts | Jellyfin.Plugin.Bangumi/Parser/Anitomy/AnitomyEpisodeParser.cs:270-279 | every title part is trimmed at both ends |
| AnitomyEpisodeParser.JoinTidy | Jellyfin.Plugin.Bangumi/Parser/Anitomy/AnitomyEpisodeParser.cs:281 | joining tidy parts by spaces gives tidy text that starts with the first part |
| AnitomyEpisodeParser.TitleOfSpecialEpisode | Jellyfin.Plugin.Bangumi/Parser/Anitomy/AnitomyEpisodeParser.cs:268-283 | the special's title is empty exactly when every part is blank, and never starts or ends with white space |
| AnitomyEpisodeParser.TitleLaysOutParts | Jellyfin.Plugin.Bangumi/Parser/Anitomy/AnitomyEpisodeParser.cs:268-283 | the special's title is exactly the non-blank parts in their fixed order, one space between neighbours and nothing else |
| Text.JoinPlacesParts | Jellyfin.Plugin.Bangumi/Parser/Anitomy/AnitomyEpisodeParser.cs:281 | string.Join lays the parts out in order, each at its offset, with exactly one separator between neighbours and nothing before, after or in between |
| Text.JoinPartAt | Jellyfin.Plugin.Bangumi/Parser/Anitomy/AnitomyEpisodeParser.cs:281 | part k of string.Join sits at the sum of the earlier parts' lengths plus one separator each |
| Text.JoinSeparatorAfter | Jellyfin.Plugin.Bangumi/Parser/Anitomy/AnitomyEpisodeParser.cs:281 | the separator directly follows every part but the last |
| Text.JoinLength | Jellyfin.Plugin.Bangumi/Parser/Anitomy/AnitomyEpisodeParser.cs:281 | a join of n parts is as long as the parts plus n - 1 separators |
| AnitomyEpisodeParser.TitleStartsWithAnimeTitle | Jellyfin.Plugin.Bangumi/Parser/Anitomy/AnitomyEpisodeParser.cs:268-283 | a non-blank anime title opens the special's title |
| AnitomyEpisodeParser.GetEpisodeIndex | Jellyfin.Plugin.Bangumi/Parser/Anitomy/AnitomyEpisodeParser.cs:285-324 | the method returns Anitomy's number, or 1 or 0 by file size, plus the offset for a typed file |
| AnitomyEpisodeParser.OffsetOnlyWhenTyped | Jellyfin.Plugin.Bangumi/Parser/Anitomy/AnitomyEpisodeParser.cs:316-321 | the offset moves the index exactly when the file has a Bangumi type and the offset is non-zero; a Special file is moved too |
| AnitomyEpisodeParser.TokenNumberWins | Jellyfin.Plugin.Bangumi/Parser/Anitomy/AnitomyEpisodeParser.cs:289-296 | a parsable Anitomy number decides the index, whatever the file size or the index passed in |
| AnitomyEpisodeParser.Rule01 | Jellyfin.Plugin.Bangumi/Parser/Anitomy/AnitomyEpisodeParser.cs:95-146 | the method computes rule01's result |
| AnitomyEpisodeParser.Rule01Result | Jellyfin.Plugin.Bangumi/Parser/Anitomy/AnitomyEpisodeParser.cs:95-146 | rule01 throws, always FormatException, exactly when the index misses, the searched list is not empty and the alternative number does not parse |
| AnitomyEpisodeParser.Rule01FindsRequestedOrder | Jellyfin.Plugin.Bangumi/Parser/Anitomy/AnitomyEpisodeParser.cs:95-146 | rule01 finds an episode of the searched list with the index, the alternative number or, for a typed index 0, order 1 |
| AnitomyEpisodeParser.AltOverridesOrderOne | Jellyfin.Plugin.Bangumi/Parser/Anitomy/AnitomyEpisodeParser.cs:124-136 | the alternative number replaces the order-1 fallback even when it finds nothing |
| AnitomyEpisodeParser.Rule01OnEmptyList | Jellyfin.Plugin.Bangumi/Parser/Anitomy/AnitomyEpisodeParser.cs:120-136 | with no episode to search, rule01 finds nothing and throws nothing, whatever the alternative number |
| AnitomyEpisodeParser.FindSequel | Jellyfin.Plugin.Bangumi/Parser/Anitomy/AnitomyEpisodeParser.cs:171-179 | the foreach returns the first sequel's id, or keeps the id |
| AnitomyEpisodeParser.SequelIdIsFirstSequel | Jellyfin.Plugin.Bangumi/Parser/Anitomy/AnitomyEpisodeParser.cs:171-179 | the id taken is the first sequel's |
| AnitomyEpisodeParser.SequelIdWithoutSequel | Jellyfin.Plugin.Bangumi/Parser/Anitomy/AnitomyEpisodeParser.cs:171-179 | with no sequel the id is kept |
| AnitomyEpisodeParser.CountAfterAddsSpan | Jellyfin.Plugin.Bangumi/Parser/Anitomy/AnitomyEpisodeParser.cs:190-201 | renumbered or not, the running count grows by the span of the season's orders |
| AnitomyEpisodeParser.RunningCounts | Jellyfin.Plugin.Bangumi/Parser/Anitomy/AnitomyEpisodeParser.cs:190-201 | seasons of 25, 22 and 30 episodes give counts 25, 47 and 77 |
| AnitomyEpisodeParser.MatchSeason | Jellyfin.Plugin.Bangumi/Parser/Anitomy/AnitomyEpisodeParser.cs:206-226 | the four successive lookups compute the season's match |
| AnitomyEpisodeParser.MatchInSeasonRewritesOrder | Jellyfin.Plugin.Bangumi/Parser/Anitomy/AnitomyEpisodeParser.cs:206-226 | the match is a season episode with only its order changed, to the index or the alternative number; the index wins when the index or index less the count is present |
| AnitomyEpisodeParser.NextSeason | Jellyfin.Plugin.Bangumi/Parser/Anitomy/AnitomyEpisodeParser.cs:168-226 | one pass from the nextSeason label computes the hop |
| AnitomyEpisodeParser.Rule02 | Jellyfin.Plugin.Bangumi/Parser/Anitomy/AnitomyEpisodeParser.cs:157-229 | the method computes rule02's result |
| AnitomyEpisodeParser.Rule02Result | Jellyfin.Plugin.Bangumi/Parser/Anitomy/AnitomyEpisodeParser.cs:157-229 | rule02 throws FormatException exactly when the alternative number does not parse, and otherwise only what Last and the walk throw |
| AnitomyEpisodeParser.Rule02Unfolds | Jellyfin.Plugin.Bangumi/Parser/Anitomy/AnitomyEpisodeParser.cs:159-166 | rule02 returns null when both numbers lie within the first season, and walks from it otherwise |
| AnitomyEpisodeParser.WalkSeasons | Jellyfin.Plugin.Bangumi/Parser/Anitomy/AnitomyEpisodeParser.cs:166-228 | the goto loop computes the walk |
| AnitomyEpisodeParser.Walk | Jellyfin.Plugin.Bangumi/Parser/Anitomy/AnitomyEpisodeParser.cs:166-228 | the walk throws only InvalidOperationException (First on an empty season), or runs out of passes |
| AnitomyEpisodeParser.WalkFindsRequestedOrder | Jellyfin.Plugin.Bangumi/Parser/Anitomy/AnitomyEpisodeParser.cs:206-226 | the walk's match has the index or the alternative number as its order |
| AnitomyEpisodeParser.NoAltIsMinusOne | Jellyfin.Plugin.Bangumi/Parser/Anitomy/AnitomyEpisodeParser.cs:159 | a missing alternative number reads as -1 |
| AnitomyEpisodeParser.Rule02FindsRequestedOrder | Jellyfin.Plugin.Bangumi/Parser/Anitomy/AnitomyEpisodeParser.cs:157-229 | rule02's match has the index or the parsed alternative number as its order |
| AnitomyEpisodeParser.Rule02StaysInSeason | Jellyfin.Plugin.Bangumi/Parser/Anitomy/AnitomyEpisodeParser.cs:161-166 | within the first season rule02 finds nothing and never asks for related subjects |
| AnitomyEpisodeParser.WalkStopsAtDeadEnd | Jellyfin.Plugin.Bangumi/Parser/Anitomy/AnitomyEpisodeParser.cs:171-182 | after a sequel has been followed, a subject without sequel ends the walk with null |
| AnitomyEpisodeParser.FirstPassWithoutSequelEntersSubjectZero | Jellyfin.Plugin.Bangumi/Parser/Anitomy/AnitomyEpisodeParser.cs:168-187 | on the first pass no sequel leaves id 0, and the walk enters subject 0 |
| AnitomyEpisodeParser.HopFollowsFirstSequel | Jellyfin.Plugin.Bangumi/Parser/Anitomy/AnitomyEpisodeParser.cs:171-203 | the walk enters the first sequel |
| AnitomyEpisodeParser.SequelCycleNeverEnds | Jellyfin.Plugin.Bangumi/Parser/Anitomy/AnitomyEpisodeParser.cs:168-203 | two subjects naming each other as sequel, with seasons that leave the count unchanged, keep the walk going for every bound |
| AnitomyEpisodeParser.MatchEpisode | Jellyfin.Plugin.Bangumi/Parser/Anitomy/AnitomyEpisodeParser.cs:53-58 | the method runs rule01, then rule02 when it misses for a Normal or untyped file |
| AnitomyEpisodeParser.Finish | Jellyfin.Plugin.Bangumi/Parser/Anitomy/AnitomyEpisodeParser.cs:60-82 | the method names a nameless match, makes up an episode, and catches InvalidOperationException |
| AnitomyEpisodeParser.GetEpisode | Jellyfin.Plugin.Bangumi/Parser/Anitomy/AnitomyEpisodeParser.cs:41-83 | the method returns what the resolution function specifies |
| AnitomyEpisodeParser.MatchedErrors | Jellyfin.Plugin.Bangumi/Parser/Anitomy/AnitomyEpisodeParser.cs:53-58 | rule01 and rule02 together throw only FormatException, InvalidOperationException, or NoTermination for a walk that does not end |
| AnitomyEpisodeParser.EpisodeOf | Jellyfin.Plugin.Bangumi/Parser/Anitomy/AnitomyEpisodeParser.cs:41-83 | no InvalidOperationException leaves GetEpisode: only FormatException, or a walk that does not end |
| AnitomyEpisodeParser.NullOnlyFromInvalidOperation | Jellyfin.Plugin.Bangumi/Parser/Anitomy/AnitomyEpisodeParser.cs:53-82 | GetEpisode returns null exactly when rule01 misses for a Normal or untyped file and rule02 throws InvalidOperationException |
| AnitomyEpisodeParser.FinishedNullOnlyOnCatch | Jellyfin.Plugin.Bangumi/Parser/Anitomy/AnitomyEpisodeParser.cs:60-82 | the catch of InvalidOperationException is the only way GetEpisode returns null |
| AnitomyEpisodeParser.MatchedInvalidOperation | Jellyfin.Plugin.Bangumi/Parser/Anitomy/AnitomyEpisodeParser.cs:53-58 | the match throws InvalidOperationException only from rule02, after rule01 found nothing for a Normal or untyped file |
| AnitomyEpisodeParser.UnplacedFileIsMadeUp | Jellyfin.Plugin.Bangumi/Parser/Anitomy/AnitomyEpisodeParser.cs:70-76 | an unplaced file gets a made-up episode: id 0, the file's type or Special, the index as order, the made-up title |
| AnitomyEpisodeParser.NothingToSearchIsMadeUp | Jellyfin.Plugin.Bangumi/Parser/Anitomy/AnitomyEpisodeParser.cs:53-76 | a file typed other than Normal whose subject offers nothing to search gets the made-up episode, whatever its alternative number |
| AnitomyEpisodeParser.Rule02OnlyAfterRule01Misses | Jellyfin.Plugin.Bangumi/Parser/Anitomy/AnitomyEpisodeParser.cs:53-58 | when rule01 hits, or the file is typed, the result does not depend on the walk |
| AnitomyEpisodeParser.MatchedWithoutWalk | Jellyfin.Plugin.Bangumi/Parser/Anitomy/AnitomyEpisodeParser.cs:53-58 | when rule01 decides the match, neither the fuel nor the related subjects change it |
| EpisodeProvider.TruncateToInt | Jellyfin.Plugin.Bangumi/Providers/EpisodeProvider.cs:52 | the (int) cast truncates toward zero |
| EpisodeProvider.ReadProductionYear | Jellyfin.Plugin.Bangumi/Providers/EpisodeProvider.cs:47-48 | the method computes the production year |
| EpisodeProvider.FillFromEpisode | Jellyfin.Plugin.Bangumi/Providers/EpisodeProvider.cs:41-54 | fails with FormatException exactly when the year does not parse; otherwise the item filled from the episode |
| EpisodeProvider.Place | Jellyfin.Plugin.Bangumi/Providers/EpisodeProvider.cs:56-66 | the method computes the placement |
| EpisodeProvider.MarkSpecial | Jellyfin.Plugin.Bangumi/Providers/EpisodeProvider.cs:71-89 | the method computes the special's item |
| EpisodeProvider.GetMetadata | Jellyfin.Plugin.Bangumi/Providers/EpisodeProvider.cs:25-92 | the method returns what the metadata function specifies |
| EpisodeProvider.Metadata | Jellyfin.Plugin.Bangumi/Providers/EpisodeProvider.cs:25-92 | a result has metadata exactly when it has an item; only cancellation, InvalidOperationException and FormatException leave |
| EpisodeProvider.ItemFor | Jellyfin.Plugin.Bangumi/Providers/EpisodeProvider.cs:41-89 | the item carries the episode's id as its only provider id, and is a normal episode in a season above 0 or filed under season 0 |
| EpisodeProvider.PlacedKeeps | Jellyfin.Plugin.Bangumi/Providers/EpisodeProvider.cs:56-66 | placement touches only the season id and season number |
| EpisodeProvider.AsSpecialKeeps | Jellyfin.Plugin.Bangumi/Providers/EpisodeProvider.cs:71-89 | a special is filed under season 0, with only names and airs numbers changed besides |
| EpisodeProvider.NoEpisodeNoMetadata | Jellyfin.Plugin.Bangumi/Providers/EpisodeProvider.cs:36-43 | there is no metadata exactly when the request goes through and the parser resolves nothing |
| EpisodeProvider.FailureCases | Jellyfin.Plugin.Bangumi/Providers/EpisodeProvider.cs:25-92 | GetMetadata fails exactly on cancellation, a parser exception, or a four-character air date that is not a number |
| EpisodeProvider.StoredIdReadsBack | Jellyfin.Plugin.Bangumi/Providers/EpisodeProvider.cs:42 | the item carries only the Bangumi id, and the parser reads that id back |
| EpisodeProvider.FourDigitYearReadsBack | Jellyfin.Plugin.Bangumi/Providers/EpisodeProvider.cs:47-48 | a four-digit year is read back as itself |
| EpisodeProvider.NoYearUnlessFourCharacters | Jellyfin.Plugin.Bangumi/Providers/EpisodeProvider.cs:47-48 | no year unless the air date has exactly four characters, which must then parse |
| EpisodeProvider.DisplayedIndexUndoesOffset | Jellyfin.Plugin.Bangumi/Providers/EpisodeProvider.cs:52 | the item shows the whole-number index the lookup started from, the offset added back |
| EpisodeProvider.OffsetTwentySixShowsTwentySeven | Jellyfin.Plugin.Bangumi.Test/Episode.cs:697-708 | with offset 26 the season's episode 1 is shown as 27 |
| EpisodeProvider.WholeOrderShown | Jellyfin.Plugin.Bangumi/Providers/EpisodeProvider.cs:52 | a whole order m is shown as m plus the offset |
| EpisodeProvider.IndexSurvivesPlacement | Jellyfin.Plugin.Bangumi/Providers/EpisodeProvider.cs:52-89 | placing and marking never touch the index |
| EpisodeProvider.SeasonPlacement | Jellyfin.Plugin.Bangumi/Providers/EpisodeProvider.cs:54-72 | always a season; season 0 for specials, non-Normal types and season-0 files; otherwise the parent season's number, else the library's (1 when none) |
| EpisodeProvider.RegularEpisodeKeepsItsNames | Jellyfin.Plugin.Bangumi/Providers/EpisodeProvider.cs:50-51 | a normal episode in a season above 0 keeps its own names and gets no airs number |
| EpisodeProvider.SpecialNamesFromSubject | Jellyfin.Plugin.Bangumi/Providers/EpisodeProvider.cs:75-83 | a special takes its subject's name only where its own is empty, and gets no airs number without a subject |
| EpisodeProvider.SpecialAirsBeforeOrAfter | Jellyfin.Plugin.Bangumi/Providers/EpisodeProvider.cs:85-89 | a special airs before or after, never both: before exactly when its date sorts before the subject's |
| EpisodeProvider.SameDayAirsAfter | Jellyfin.Plugin.Bangumi/Providers/EpisodeProvider.cs:85-89 | a special dated the same day as its subject airs after it |
| EpisodeProvider.OverviewNeverEmpty | Jellyfin.Plugin.Bangumi/Providers/EpisodeProvider.cs:53 | the overview is the description when it has text, and null otherwise |

## Left out

- Remote calls: the Bangumi API (episode, episode list, subject, related subjects), the
  library manager's `FindByPath`, and reading `bangumi.ini` through
  `LocalConfiguration.ForPath` are parameters. The model asks each the same question and
  gets the same answer, with no caching, no network and no failure other than null.
- Anitomy's tokenizer and `AnitomyEpisodeTypeMapping` are parameters: the tokens the file
  name yields and the mapping of type tokens are given, not computed.
- `ProcessMultiSeasonFolder` (the subject search for a multi-season folder) is a parameter
  of the Anitomy parser: its search by name and `Subject.SortBySimilarity` on the results
  go through the remote API.
- AnitomyEpisodeParser.Rule02: the unbounded `goto nextSeason` loop is bounded by a fuel
  count and gives `NoTermination` when the count runs out, since Dafny functions must
  terminate.
- AnitomyEpisodeParser.Rule02: `ForEach(e => e.Order = ...)` changes the episode objects
  in place. Those objects may be shared with the API's cache. The model works on copies,
  so that aliasing is not captured.
- FilePath follows the Unix path rules: `/` is the only separator. The `\` separator and
  drive roots that `Path.GetFileName` and `Path.GetDirectoryName` also honour on Windows
  are not modelled.
- FilePath.DirectoryName keeps repeated separators inside the directory part, while
  `Path.GetDirectoryName` on Unix collapses them ("a//b/c" gives "a/b"). Its only use,
  FolderName, takes the last name of that directory, which is the same either way.
- Text.OrdinalLess compares Unicode scalar values, while the ordinal `string.Compare`
  compares UTF-16 code units. The two orders differ only between a character at U+E000
  or above and a character outside the Basic Multilingual Plane, which air dates never
  hold.
- `WebUtility.HtmlDecode`, `string.ToLower` and `Fuzz.Ratio` are parameters. No Unicode
  case rules or HTML entity table is modelled.
- The regular expressions are written out by hand. `\d` is ASCII and IgnoreCase folds
  ASCII letters only. `\w` counts every non-ASCII character outside the common
  punctuation blocks as a word character.
- Text.ParseInt32 and the double parser accept white space, a sign and decimal digits
  only. Culture, thousands separators, exponents, hexadecimal, Infinity and NaN are not
  modelled, and a double is an exact rational, with no rounding to binary64.
- `DateTime.TryParse` and `PremiereDate` in EpisodeProvider.cs:45-46 are left out, since
  date parsing follows the culture.
- EpisodeProvider.TruncateToInt: the `(int)` cast is unbounded. The overflow of a huge
  order and the 32-bit wrap-around of `(int)Order + Offset` are not modelled.
- Cancellation is the single check at EpisodeProvider.cs:27. Tokens passed to the remote
  calls, `async`, logging and `ResultLanguage` are left out.
- `GetSearchResults`, which throws NotImplementedException, and `GetImageResponse`, which
  only forwards a URL to the HTTP client, are left out.
- `episode.Name` and `series.Name` in EpisodeProvider.cs:50 and 80-83 are read as
  `GetName(configuration)`, since the classes shown declare no `Name` member.
- SubjectModel.SortBySimilarity treats the list's entries as distinct objects. A list
  holding the same subject twice would make `Dictionary.Add` throw, and the model does
  not capture that.
- The JSON deserialisation of episodes and subjects is left out. Records are built from
  their fields.
