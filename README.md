# Podcast analyzer core, modelled in Dafny

The podcast analyzer sends a transcript through a crew of language-model
agents (summarizer, sentiment analyzer, action-item extractor, researcher,
fact checker, translator) and turns the crew's free-form answer into a
structured record: a summary, key topics, a sentiment analysis and action
items, plus optional extra fields. This project models the deterministic
core of that pipeline:

- the robust result parser (`utils/result_parser.py`): its format detection
  order, the extractors for numbered items, prioritized lists, the
  "Comprehensive Set" format, agent blocks, section headers, bullet lists and
  additional fields, the generated summary and sentiment, and the default
  completion of the structure;
- the older header-splitting parser of the podcast crew (`agents/crew.py`);
- the configuration checks (`utils/config.py`): required environment
  variables and the MongoDB connection-string normalisation;
- the agent registry (`agents/registry.py`) as a class whose maps are
  updated in place;
- the task input truncation and description (`agents/tasks/task_base.py`);
- the line parsing of the researcher and the claim handling of the fact
  checker (`agents/definitions/researcher.py`,
  `agents/definitions/fact_checker.py`);
- the multilingual and localization crews' language bookkeeping and result
  re-keying (`crews/multilingual_crew.py`);
- the text chunking of the text-to-speech client (`api/tts.py`).

Python's string operations (`split`, `strip`, `join`, `find`, `in`,
`startswith`, slicing with negative and oversized bounds) are defined once
in module `PyStrings`, with the properties the rest of the model relies on;
the line-by-line folds shared by several parsers are in `LineParsing`, and
`Option`/`Result` are in `Wrappers`. Regular expressions of the parser are
written out as the scanning functions of `ParserPatterns`, one per pattern.
Language-model calls, HTTP, files, databases, clocks and logging are not
modelled: where the core consumes their output it is a parameter.

## Model

| member | source | states |
|---|---|---|
| Config.MissingVars | utils/config.py:18 | the missing list is never longer than the required list |
| Config.MissingVarsExact | utils/config.py:18 | a name is reported missing exactly when it is required and unset or set to the empty string |
| Config.LoadEnvironment | utils/config.py:18-26 | a failure carries exactly the missing names, in the required order, never none, and the message "Missing required environment variables: a, b. Please check your .env file." |
| Config.LoadEnvironmentOutcome | utils/config.py:10-26 | loading fails exactly when some required variable is unset or empty; on success the result maps exactly the five required names to their (non-empty) values |
| Config.EmptyEnvironmentListsAll | utils/config.py:10-24 | with nothing set, all five names are reported, in the fixed order |
| Config.GetMongodbUri | utils/config.py:40-45 | an unset MONGODB_URI gives None; a set but empty one is returned unchanged |
| Config.NormalizeUnquotes | utils/config.py:45-59 | no single or double quote is left in a normalised URI |
| Config.AddDatabaseAfterSlash | utils/config.py:50-55 | with a "/?" whose host part has no segment starting with podcast_analytics, the name is inserted right after that '/' and nothing else changes |
| Config.AddDatabaseBeforeQuery | utils/config.py:56-59 | with a '?' but no "/?" and no '/' after the last '@' of the part before the first '?', "/podcast_analytics" is inserted before the first '?' and nothing else changes |
| Config.AddDatabaseOtherwise | utils/config.py:50-61 | in every other case the unquoted URI is returned unchanged |
| Config.AddDatabaseNamesDatabase | utils/config.py:49-59 | a URI with options ends up with "/podcast_analytics?" in it unless a host segment already names the database or a '/' already precedes the options |
| CrewStructure.CleanLines | agents/crew.py:130 | at most one cleaned entry per line |
| CrewStructure.CleanLinesCount | agents/crew.py:130 | exactly one cleaned entry per non-blank line: blank lines are the only ones dropped |
| CrewStructure.StructureResults | agents/crew.py:110-147 | a field whose header does not occur stays empty |
| CrewStructure.SummaryIsSegmentBeforeTopics | agents/crew.py:118-122 | the summary is the text after the first "Executive Summary:" up to the next one, cut before the first "Key Topics:", stripped |
| CrewStructure.TopicsAreSegmentLines | agents/crew.py:125-130 | the topics are the cleaned non-blank lines of the "Key Topics:" segment cut before "Sentiment Analysis:" |
| CrewStructure.SentimentIsSegmentBeforeActions | agents/crew.py:133-137 | the sentiment is the "Sentiment Analysis:" segment cut before "Action Items:", stripped |
| CrewStructure.ActionsAreSegmentLines | agents/crew.py:140-145 | the action items are the cleaned non-blank lines of the whole "Action Items:" segment |
| CrewStructure.SummaryKeepsOtherHeaders | agents/crew.py:121 | only "Key Topics:" ends the summary: other headers inside its segment stay part of it |
| CrewStructure.DashLineGivesEmptyTopic | agents/crew.py:130 | a line of dashes is not blank and yields an empty topic |
| CrewStructure.Before | agents/crew.py:121 | the text before the first separator is a prefix of the text and holds no separator |
| FactChecker.ExtractClaims | agents/definitions/fact_checker.py:40-45 | the claims are the stripped lines, in order, of the stripped answer that start (after stripping) with "- " or "* " or hold ": " anywhere |
| FactChecker.ClaimsStripped | agents/definitions/fact_checker.py:41-43 | every claim comes back already stripped |
| FactChecker.ClassifyStatusOrder | agents/definitions/fact_checker.py:84-92 | on the upper-cased text the first matching keyword group decides: Verified exactly when "TRUE" or "VERIFIED" occurs, Refuted exactly when neither does and "FALSE" or "INCORRECT" does, Unknown exactly when no keyword occurs |
| FactChecker.SearchQueryWords | agents/definitions/fact_checker.py:64 | the search query, split into words again, is exactly the claim's first five words (all of them when fewer), in order |
| FactChecker.WikipediaContext | agents/definitions/fact_checker.py:58-70 | the context is empty exactly when the search is off, raised or found nothing; otherwise it is "Wikipedia context: " followed by the first 1000 characters of the result (all of them when it is shorter) |
| FactChecker.ClaimsToCheck | agents/definitions/fact_checker.py:118-119 | the checked claims are a prefix of the claims, of length max_claims when there are more |
| FactChecker.Verifications | agents/definitions/fact_checker.py:122-125 | one record per checked claim |
| FactChecker.CountStatus | agents/definitions/fact_checker.py:130-131 | a tally never exceeds the number of records |
| FactChecker.CountStatusIsMultiplicity | agents/definitions/fact_checker.py:130-131 | the verified and refuted tallies are the number of records carrying that status |
| FactChecker.CountUncertainIsRest | agents/definitions/fact_checker.py:132 | the uncertain tally is the number of records that are neither verified nor refuted |
| FactChecker.CountUncertain | agents/definitions/fact_checker.py:132 | the uncertain tally never exceeds the number of records |
| FactChecker.VerifyAll | agents/definitions/fact_checker.py:122-125 | the loop verifies each claim in turn and appends its record, in order |
| FactChecker.CheckTranscriptFacts | agents/definitions/fact_checker.py:115-136 | the report is that of the verifications of the extracted claims cut to max_claims |
| FactChecker.TalliesAddUp | agents/definitions/fact_checker.py:128-134 | verified, refuted and uncertain counts add up to the total: every checked claim is counted exactly once |
| FactChecker.ReportCoversFirstClaims | agents/definitions/fact_checker.py:115-134 | the report covers exactly the first max_claims claims (all when fewer), record k echoing claim k with the status its verification text gives |
| Researcher.FindRelatedSources | agents/definitions/researcher.py:80-91 | the loop collects, in line order, what each line of the stripped answer contributes as a source |
| Researcher.BulletSource | agents/definitions/researcher.py:82-83 | a line whose stripped form starts with "- " or "* " contributes that stripped line without its two-character bullet |
| Researcher.LinkSource | agents/definitions/researcher.py:84-89 | a non-bullet line starting with '[' and holding a ']' contributes the text between the '[' and the first ']', which holds no ']' |
| Researcher.OtherLinesIgnored | agents/definitions/researcher.py:81-89 | a line that is neither a bullet nor starts with '[' contributes nothing |
| Researcher.ExtractKeyTopicsForResearch | agents/definitions/researcher.py:132-140 | all topic lines are read first, then only the first max_topics topics are returned |
| Researcher.LabelTopic | agents/definitions/researcher.py:136-138 | a non-bullet line holding ':' contributes the stripped text before its first ':' exactly when that raw text is shorter than 30 characters |
| Researcher.TopicsCapped | agents/definitions/researcher.py:140 | at most max_topics topics come back, they are the first ones found, and all of them when there are no more |
| MultilingualCrew.RemoveFirstAt | crews/multilingual_crew.py:40 | `list.remove` takes out the element at the first index holding the value and keeps the rest in order |
| MultilingualCrew.RemoveFirstOneCopy | crews/multilingual_crew.py:40 | removing a present value takes out exactly one copy: the multiset loses one occurrence and the length drops by one |
| MultilingualCrew.StringList.constructor | crews/multilingual_crew.py:36 | a new list holds the given items |
| MultilingualCrew.StringList.Remove | crews/multilingual_crew.py:39-40 | the list is changed in place to the old list without the first copy of the value |
| MultilingualCrew.ListOr | crews/multilingual_crew.py:36 | `given or default`: a non-empty given list is the very same object; otherwise a fresh list holding the default |
| MultilingualCrew.InitialTargetsDropOneCopy | crews/multilingual_crew.py:35-40 | the targets are the given list (or the four defaults when empty) with exactly one copy of the source language removed when present, the rest in order |
| MultilingualCrew.SourceNotTarget | crews/multilingual_crew.py:38-40 | the source language is no longer a target when it was listed at most once |
| MultilingualCrew.TargetsCaseSensitive | crews/multilingual_crew.py:35-40 | only the source is lowercased: a target "English" survives a source "english" |
| MultilingualCrew.DefaultTargetsWithoutEnglish | crews/multilingual_crew.py:36-40 | with the default source and no targets, the targets are spanish, french, german |
| MultilingualCrew.AdvancedMultilingualCrew.constructor | crews/multilingual_crew.py:35-40 | the source is lowercased; the target list is the initial targets; a non-empty given list is kept as the same object (so the caller sees the removal), an empty or missing one is replaced by a fresh default list and left untouched |
| MultilingualCrew.AdvancedMultilingualCrew.RestructureResults | crews/multilingual_crew.py:93-157 | the imperative restructuring loop gives exactly the restructured result, or None (the raw JSON is returned) where the source raises |
| MultilingualCrew.SplitActionItemLines | crews/multilingual_crew.py:136-142 | the loop gives one item per non-blank line, in order |
| MultilingualCrew.InitTranslationsOutcome | crews/multilingual_crew.py:97-112 | initialisation fails exactly on a `translations` value that is not an object; otherwise both languages are recorded, the source entry holds the top-level summary, topics and action items (or "Summary not available", [] and []), and every other key and every other language's translation is kept |
| MultilingualCrew.MoveSummaryMoves | crews/multilingual_crew.py:119-126 | a present `<lang>_summary` leaves the top level and becomes that language's translated summary; no other top-level key changes |
| MultilingualCrew.MoveActionItemsMoves | crews/multilingual_crew.py:128-152 | a present `<lang>_action_items` leaves the top level and its value, split when it is a text, becomes that language's action items; no other top-level key changes |
| MultilingualCrew.RekeyLanguageKeys | crews/multilingual_crew.py:115-152 | one language's step removes only its two keys and rewrites only `translations` |
| MultilingualCrew.RekeyAllKeys | crews/multilingual_crew.py:115-152 | after the loop a key is left exactly when it was there and is not a moved key of some target language; every key other than `translations` keeps its value |
| MultilingualCrew.RestructureOutcome | crews/multilingual_crew.py:93-154 | a restructured result names both languages, has a `translations` object, keeps no `<lang>_summary` or `<lang>_action_items` of a target, and keeps every other key of the crew's result with its value |
| MultilingualCrew.SplitActionItemsBlank | crews/multilingual_crew.py:136-147 | no item is found exactly when every line of the text is blank, which is when the whole text is stored as a one-item list |
| MultilingualCrew.SplitActionItemsStripped | crews/multilingual_crew.py:138-142 | every split item is stripped |
| MultilingualCrew.ActionItemStripped | crews/multilingual_crew.py:138-142 | the item a non-blank line gives is stripped |
| MultilingualCrew.MarkedActionItem | crews/multilingual_crew.py:139-140 | a line starting with '-' or '*' gives its text after that one marker, stripped |
| MultilingualCrew.ActionItemsValueShape | crews/multilingual_crew.py:133-149 | text action items become a non-empty list of texts (the whole text when no line is left); action items of any other kind are stored unchanged |
| MultilingualCrew.UnknownCultureIsEnglish | crews/multilingual_crew.py:191-192 | a culture missing from the table maps to "english" |
| MultilingualCrew.KnownCulture | crews/multilingual_crew.py:172-192 | in a table of distinct cultures each culture maps to the language paired with it |
| MultilingualCrew.DefaultLocalizationKeepsEnglish | crews/multilingual_crew.py:172-195 | from "US" with the default cultures the languages are english, english, spanish, french and only one english goes, so the source language stays a target |
| MultilingualCrew.BuildCultureMap | crews/multilingual_crew.py:202-204 | the map has exactly the target cultures as keys, each mapped to its language |
| MultilingualCrew.CultureLanguagesInOrder | crews/multilingual_crew.py:192 | one target language per target culture, in order |
| MultilingualCrew.LocalizationCrew.constructor | crews/multilingual_crew.py:162-204 | the cultures are the given non-empty list (the same object) or a fresh default list; the inner crew gets the lowercased language of the source culture and the initial targets built from the cultures' languages; the culture map pairs each target culture with its language |
| ParserAgents.AgentMapKeys | utils/result_parser.py:421-427 | an agent is filed exactly when some "# Agent:" block names it (its first group, stripped) |
| ParserAgents.TaskAgent | utils/result_parser.py:439-447 | on the lower-cased description, "summariz" wins over every other keyword; a description names no agent exactly when none of the four keywords occurs; only the four known agents come back |
| ParserAgents.TaskMapKeys | utils/result_parser.py:432-447 | only the four known agents are filed from task blocks, each exactly when some task block's description points to it |
| ParserAgents.ExtractAgentOutputs | utils/result_parser.py:418-449 | the outputs are the agent blocks' map, or the task blocks' map when the former is empty |
| ParserAgents.AddAgentOutputs | utils/result_parser.py:424-427 | the loop over agent blocks computes the agent map, a later block overwriting an earlier one |
| ParserAgents.AddTaskOutputs | utils/result_parser.py:435-447 | the loop over task blocks computes the task map |
| ParserAgents.AgentMapEmpty | utils/result_parser.py:430 | the agent map is empty exactly when no agent block matched, which is when task blocks are tried |
| ParserAgents.LastBlockWins | utils/result_parser.py:424-427 | the output filed under an agent is the stripped final answer of its last block |
| ParserAgents.LastTaskWins | utils/result_parser.py:435-447 | the output filed under an agent is the stripped output of the last task block pointing to it |
| ParserAgents.AgentOutputsKeys | utils/result_parser.py:418-449 | an agent has an output exactly when an agent block names it, or when there is no agent block and a task block points to it |
| ParserExtract.SentenceHead | utils/result_parser.py:277 | the first sentence holds no '.' and is no longer than the description |
| ParserExtract.FirstSentence | utils/result_parser.py:277-279 | the shown sentence has at most 100 characters: the first sentence itself when it fits, else its first 97 characters followed by "..." |
| ParserExtract.FormatNumbered | utils/result_parser.py:272-283 | an item starts with the stripped title; it is the bare title when the description is blank, else "title: first sentence"; it is at most 102 characters longer than the title |
| ParserExtract.FormatAllNumbered | utils/result_parser.py:271-285 | one item per match |
| ParserExtract.NumberedItems | utils/result_parser.py:264-287 | one item per numbered-heading match |
| ParserExtract.ExtractNumberedItemsWithDescriptions | utils/result_parser.py:264-287 | the loop formats every match of the numbered-item pattern, in text order |
| ParserExtract.NumberedItemsEmpty | utils/result_parser.py:267-269 | no item is extracted exactly when the numbered-item pattern matches at no position |
| ParserExtract.FormatWithDetail | utils/result_parser.py:307-315 | an item starts with the stripped title; it is the title alone when the detail is blank, else "title: first sentence of the detail" (no length cut here) |
| ParserExtract.FormatAllWithDetail | utils/result_parser.py:306-317 | one item per match |
| ParserExtract.ComprehensiveItems | utils/result_parser.py:299-319 | one item per "Comprehensive Set" entry |
| ParserExtract.ExtractComprehensiveItems | utils/result_parser.py:299-319 | the items are the entries' titles with the first sentence of their Implementation Guidance |
| ParserExtract.FormatEachWithDetail | utils/result_parser.py:306-317 | the loop formats each match with its detail group, in order |
| ParserExtract.StrippedTitles | utils/result_parser.py:359-361 | one title per match |
| ParserExtract.ExtractActionItemsFromStructuredList | utils/result_parser.py:331-375 | the first of the Context/Action/Benefit, three-label and bold-title formats that matches decides the items |
| ParserExtract.StripEachTitle | utils/result_parser.py:359-373 | the loop gives each match's stripped title, in order |
| ParserExtract.StructuredListEmpty | utils/result_parser.py:336-375 | the structured-list extractor finds nothing exactly when none of its three patterns matches at any position |
| ParserExtract.TopicParts | utils/result_parser.py:389-402 | one topic part per item |
| ParserExtract.ExtractTopicsFromActionItems | utils/result_parser.py:387-406 | the loop keeps each item's non-empty topic part (before the first ':', else ' - ', else '(', stripped) unless it is already present |
| ParserExtract.TopicsDistinct | utils/result_parser.py:403-404 | topics are non-empty and pairwise distinct, and never outnumber the items |
| ParserExtract.TopicsMembership | utils/result_parser.py:389-406 | a string is a topic exactly when it is the non-empty topic part of some item |
| ParserExtract.TopicsFirstSeenOrder | utils/result_parser.py:389-406 | topics come in the order of their first appearance among the items |
| ParserExtras.ClaimsOf | utils/result_parser.py:618-622 | one claim per verification match, each the match's claim and status, stripped, in order |
| ParserExtras.FactCheckOf | utils/result_parser.py:610-629 | the fact check is stored as text exactly when no "claim: … status: …" pair is found in the stripped section; structured results are never empty |
| ParserExtras.TranslationMap | utils/result_parser.py:650-655 | a language is a key exactly when some translation block names it, lower-cased |
| ParserExtras.ExtractAdditionalFields | utils/result_parser.py:602-657 | the loop-based extraction gives exactly the additional fields: a fact check only when "fact check" occurs and its section is found, research likewise, and a (possibly empty) translation map whenever "translation" occurs |
| ParserExtras.CollectClaims | utils/result_parser.py:618-622 | the loop appends one stripped claim and status per match |
| ParserExtras.CollectTranslations | utils/result_parser.py:650-655 | the loop files each stripped translation under its lower-cased language |
| ParserExtras.TranslationKeysLowerCase | utils/result_parser.py:653 | every translation is filed under a lower-case language name |
| ParserExtras.LastTranslationWins | utils/result_parser.py:652-655 | a language's translation is the stripped content of its last block |
| ParserExtras.FactResultsStripped | utils/result_parser.py:620-622 | every claim and status comes back stripped |
| ParserPatterns.UnwrapBoldOnlyDropsStars | utils/result_parser.py:539 | replacing each `**text**` run by its text deletes asterisks and nothing else |
| ParserPatterns.UnwrapAtBold | utils/result_parser.py:539 | a bold run at the scan position is replaced by its inner text and the scan resumes after its closing "**" |
| ParserPatterns.BlankLineEnd | utils/result_parser.py:584 | a blank-line separator is at least two characters, all whitespace |
| ParserPatterns.SplitBlankLinesFrom | utils/result_parser.py:584 | splitting at blank lines always yields at least one paragraph |
| ParserPatterns.FindAllEmpty | utils/result_parser.py:269 | `findall` finds nothing exactly when the pattern matches at no position |
| ParserPatterns.EarliestIn | utils/result_parser.py:607 | `search` takes the earliest position where the pattern matches, and none is reported only when it matches nowhere |
| ParserSections.EarliestVariant | utils/result_parser.py:473-480 | a chosen header variant occurs in the text |
| ParserSections.EarliestVariantOrder | utils/result_parser.py:475-480 | the chosen variant occurs no later than any other variant, and strictly earlier than every variant listed before it (a tie keeps the first listed) |
| ParserSections.EarliestVariantAbsent | utils/result_parser.py:473-482 | no variant is chosen exactly when none is found |
| ParserSections.EarliestVariantNone | utils/result_parser.py:473-482 | no variant is chosen exactly when no variant occurs in the text |
| ParserSections.CutAt | utils/result_parser.py:485-493 | the section end is at or after its start, no other field's header occurs between them, and it is the end of the text or the position of one of those headers |
| ParserSections.SectionSpan | utils/result_parser.py:482-493 | a section's bounds are ordered and inside the text |
| ParserSections.SectionsOf | utils/result_parser.py:471-504 | a field has a section exactly when one of its header variants occurs; topics and action items are lists, the other two texts |
| ParserSections.ParseSections | utils/result_parser.py:461-506 | topics and action items come back as lists, summary and sentiment as texts |
| ParserSections.ParseSectionsWithHeaders | utils/result_parser.py:461-506 | the loop over the four fields computes exactly the sections |
| ParserSections.ParseSection | utils/result_parser.py:472-504 | one round finds the field exactly when a header occurs, and then stores the stripped section text, or its bullet points for the list fields |
| ParserSections.FindSectionStart | utils/result_parser.py:473-480 | the scan ends with -1 when no variant occurs, else with the earliest variant and its first position |
| ParserSections.FindSectionEnd | utils/result_parser.py:485-493 | the scan over the other fields' headers ends at the earliest one found after the start, else at the end of the text |
| ParserSections.SectionPresent | utils/result_parser.py:471-482 | a field is in the result exactly when some header variant of it occurs in the text |
| ParserSections.SectionExcludesOtherHeaders | utils/result_parser.py:487-496 | no header of another field occurs inside a section |
| ParserSections.SectionStopsAtHeader | utils/result_parser.py:485-493 | a section runs to the end of the text or stops exactly where another field's header occurs |
| ParserSections.SectionStartsAfterEarliestHeader | utils/result_parser.py:473-484 | a section starts right after the header variant that occurs earliest |
| ParserText.MarkerRemoved | utils/result_parser.py:531-534 | a numbered bullet "N." loses its number and the period |
| ParserText.BulletOf | utils/result_parser.py:523-543 | a line contributes only when its stripped form is a bullet line, and never an empty point |
| ParserText.BulletsOf | utils/result_parser.py:523-543 | at most one point per line, none of them empty |
| ParserText.ExtractBulletPoints | utils/result_parser.py:518-545 | the loop over the lines computes exactly the bullet points |
| ParserText.BulletKeepsText | utils/result_parser.py:532-539 | apart from asterisks, a bullet point is its line without the marker: removing bold markup drops nothing else |
| ParserText.TwoDigitLineIsNotBullet | utils/result_parser.py:529 | a line starting with two digits, such as "10. x", is never a bullet |
| ParserText.NonBlankStripped | utils/result_parser.py:570-573 | the kept pieces are never empty and never outnumber the pieces |
| ParserText.NonBlankStrippedEmpty | utils/result_parser.py:585-588 | nothing is kept exactly when every piece is blank |
| ParserText.FirstGroups | utils/result_parser.py:570-571 | one group per match |
| ParserText.ExtractActionItemsFromText | utils/result_parser.py:557-590 | the result is the first non-empty one of: numbered items with descriptions, "N." lines (only when the stripped text starts with one), bullet points, paragraphs |
| ParserText.AppendNonBlank | utils/result_parser.py:585-588 | the loop appends each piece stripped, skipping blank ones |
| ParserText.ActionItemsFromTextEmpty | utils/result_parser.py:547-590 | free text yields no action items exactly when it is blank |
| ParserText.BlankTextHasNoBullets | utils/result_parser.py:521-526 | a blank text has no bullet points |
| ParserText.BlankTextHasNoParagraphs | utils/result_parser.py:584-588 | a blank text has no paragraphs |
| ParserText.ParagraphsOfNonBlank | utils/result_parser.py:584-588 | a text that is not blank has at least one paragraph |
| ParserText.SplitBlankLinesKeepsText | utils/result_parser.py:584 | splitting at blank lines drops only whitespace |
| ResultParser.HeadingFrom | utils/result_parser.py:241 | the multiline search finds the first numbered bold heading at a line start at or after the position, and reports none only when there is none |
| ResultParser.SplitIntroAndItems | utils/result_parser.py:241-248 | without a numbered heading the text comes back whole with an empty intro |
| ResultParser.SplitAgreesWithoutLeadingSpace | utils/result_parser.py:241-246 | when the text has no leading whitespace, the split is intro and items cut at the first heading of the stripped text |
| ResultParser.SplitShiftedByLeadingSpace | utils/result_parser.py:241-246 | with leading whitespace the offset found in the stripped text is applied to the unstripped one, so the cut lands inside the intro ("  Intro\n1. **A**" splits into "Intr" and "o\n1. **A**") |
| ResultParser.TopicText | utils/result_parser.py:184-186 | at most three topics are joined by ", "; with more, ", and N other areas" follows, N being the number left out |
| ResultParser.SummaryFromItems | utils/result_parser.py:181-195 | the generated summary opens with the fixed sentence naming the topic text and ends with the number of action items and the fixed closing |
| ResultParser.SummaryNamesFirstTopics | utils/result_parser.py:181-193 | the generated summary names each of the first three topics |
| ResultParser.SentimentIgnoresInput | utils/result_parser.py:197-228 | both generated sentiments are fixed non-empty texts that do not depend on their argument |
| ResultParser.Completed | utils/result_parser.py:669-694 | exactly the empty fields are replaced by the fixed defaults, the others and the additional fields are kept, and all four fields end up non-empty |
| ResultParser.CompletedIdempotent | utils/result_parser.py:666-694 | completing a completed record changes nothing |
| ResultParser.AgentStage | utils/result_parser.py:103-128 | the Executive Summarizer's output becomes the summary; without it or the Content Analyzer the summary is kept; topics already found are kept; additional fields are untouched |
| ResultParser.HeaderStage | utils/result_parser.py:131-147 | the header sections are consulted only when all four fields are still empty |
| ResultParser.MergeExtras | utils/result_parser.py:150-153 | an additional field is added only where the record has none; the four main fields are untouched |
| ResultParser.Synthesized | utils/result_parser.py:156-160 | with action items, an empty summary or sentiment is generated so both end non-empty; a non-empty one, and every other field, is kept |
| ResultParser.EarlyReturnShape | utils/result_parser.py:37-98 | an early return carries its items, the topics derived from them and non-empty summary and sentiment, and no additional fields or defaults |
| ResultParser.LateResultComplete | utils/result_parser.py:100-163 | every other parse ends with all four fields non-empty and with the additional fields extracted from the text |
| ResultParser.ParsedFieldsNonEmpty | utils/result_parser.py:5-168 | summary, sentiment and action items of a parse are never empty; key topics can be empty only after an early return |
| ResultParser.ExecutiveSummarizerWins | utils/result_parser.py:107-108 | without an early return, a non-empty Executive Summarizer output is the final summary |
| ResultParser.ContentAnalyzerSummary | utils/result_parser.py:109-110 | without an early return or a summarizer, a non-empty Content Analyzer output is the final summary |
| ResultParser.HeaderSummaryUsed | utils/result_parser.py:131-138 | when nothing before the header stage found anything, a non-empty summary section is the final summary |
| ResultParser.ResultRecord.constructor | utils/result_parser.py:27-32 | a new record has empty summary, topics, sentiment and action items and no additional fields |
| ResultParser.EnsureCompleteStructure | utils/result_parser.py:659-694 | the record is changed in place to its completion |
| ResultParser.ParseCrewResult | utils/result_parser.py:5-168 | the imperative cascade leaves a fresh record equal to the parse of the raw text |
| ResultParser.RunIntroStage | utils/result_parser.py:35-51 | stage 1 returns exactly when an intro is followed by a "1. **" list with items, with the intro as summary; otherwise the record holds at most the intro as summary |
| ResultParser.FillFromIntro | utils/result_parser.py:41-50 | the record gets the intro, the items, their topics and the intro-based sentiment |
| ResultParser.RunListStages | utils/result_parser.py:54-98 | stages 2 to 4 return exactly when the first applicable detector finds items, filling the record from them; otherwise the record is unchanged |
| ResultParser.RunLateStages | utils/result_parser.py:100-163 | agents, headers, additional fields, synthesis and defaults are applied in that order |
| ResultParser.FillFromItems | utils/result_parser.py:59-70 | the record gets the items, their topics and the summary and sentiment generated from them |
| ResultParser.ApplyAgentOutputs | utils/result_parser.py:103-128 | the record is changed in place to the agent stage's result |
| ResultParser.ApplySections | utils/result_parser.py:137-147 | each field found among the sections replaces the record's value; the others are kept |
| ResultParser.MergeAdditionalFields | utils/result_parser.py:150-153 | the record is changed in place to the merge of the additional fields |
| ResultParser.SynthesizeMissingFields | utils/result_parser.py:156-160 | the record is changed in place to its synthesized form |
| Registry.Agent.constructor | agents/registry.py:57-58 | an instance remembers the class it was made from and the model it was made for |
| Registry.EffectiveModel | agents/registry.py:47 | a given non-empty model is used; a missing or empty one falls back to the default |
| Registry.InstanceKeyParts | agents/registry.py:50 | a cache key starts with the id and ends with "_" and the model, and is no longer than both plus one |
| Registry.KeyOfNewId | agents/registry.py:74-78 | for one model, an id not yet looked up has a key not yet used by the others |
| Registry.KeysOfDistinctIds | agents/registry.py:50 | for one model, different ids never share a cache key |
| Registry.KeysCollide | agents/registry.py:50 | keys are plain concatenations, so id "a_b" with model "c" and id "a" with model "b_c" share a cache entry |
| Registry.KeysDistinctWithoutUnderscoreInModel | agents/registry.py:50 | when no model contains '_', a key determines both its id and its model |
| Registry.ReturnedModelIsRequested | agents/registry.py:47-53 | when neither model contains '_', an instance returned for a model, cached or new, was made for that model |
| Registry.AgentRegistry.constructor | agents/registry.py:12-16 | a new registry has no instances, no classes and the default model "gpt-4o" |
| Registry.AgentRegistry.Register | agents/registry.py:18-33 | registering always succeeds and sets or overwrites the id's class; cached instances and the default model are untouched |
| Registry.AgentRegistry.GetAgent | agents/registry.py:35-62 | a cached instance for "<id>_<model>" is returned as it is; else a fresh instance of the registered class for that model is cached and returned; else the not-registered error, with nothing changed; a returned instance's model always ends the key it was looked up under |
| Registry.AgentRegistry.GetAllAgents | agents/registry.py:64-80 | one instance per registered id, all for the same model, each the cached one when present and otherwise a fresh one; no cached entry is replaced and the cache gains exactly the missing keys |
| Registry.AgentRegistry.GatherOne | agents/registry.py:77-78 | one round of the loop looks up one more id and keeps the loop's invariant |
| Registry.AgentRegistry.SetDefaultModel | agents/registry.py:82-89 | only the default model changes |
| TaskBase.ProcessInputData | agents/tasks/task_base.py:70-94 | the result is a prefix of the input's text: all of it when it fits, exactly `max_length` characters when it is longer, and for a negative limit that many characters fewer from the end; an object with `get` but no "output" gives "" |
| TaskBase.TaskDescription | agents/tasks/task_base.py:38-45 | the description is kept as its prefix; it is extended exactly when the input is truthy, and then by the "INPUT:" marker and the processed input |
| TaskBase.Sections | agents/tasks/task_base.py:86-89 | one section per entry |
| TaskBase.SectionsAt | agents/tasks/task_base.py:86-89 | the k-th section is made from the k-th entry |
| TaskBase.SectionShape | agents/tasks/task_base.py:87-89 | a section is the upper-cased key and ":", a line break, then at most the share of characters from the start of the value |
| TaskBase.FormatDictSections | agents/tasks/task_base.py:82-90 | the entries' sections, in order, each cut to the length divided by the number of entries, joined by blank lines |
| TaskBase.Floor | agents/tasks/task_base.py:84 | floor division: the quotient times the divisor is at most the dividend and within one divisor of it |
| Tts.SpeechInput | api/tts.py:29-30 | text of at most 4000 characters is sent unchanged; longer text is cut to its first 4000 characters and gains the truncation notice |
| Tts.ChunkTextForTts | api/tts.py:64-137 | the method computes the chunking function: the text whole when it fits, else the packed paragraphs with oversize chunks cut at sentence ends |
| Tts.PackParagraphs | api/tts.py:82-101 | the greedy packing loop computes the packing function |
| Tts.SplitOnSentences | api/tts.py:109-135 | the per-character loop computes the cut-after-sentence-ends function |
| Tts.EndsWithSentenceEnd | api/tts.py:119-123 | true exactly when the running sentence ends with ". ", "! " or "? " |
| Tts.SentenceEndAgrees | api/tts.py:114-131 | the running sentence ends a sentence exactly when the text read so far does, so resetting it loses nothing |
| Tts.SentenceEndIsSuffix | api/tts.py:119-123 | a sentence end at a position is the same as the text up to there ending with one of the three endings |
| Tts.ShortTextIsOneChunk | api/tts.py:76-77 | text that fits comes back as the single chunk, unchanged |
| Tts.PackStepKeepsText | api/tts.py:86-97 | one packing step loses, adds and reorders no visible character |
| Tts.PackKeepsText | api/tts.py:85-97 | the closed chunks and the open chunk together hold the paragraphs' visible characters in order |
| Tts.PackedKeepsText | api/tts.py:82-101 | the packed chunks hold the paragraphs' visible characters in order |
| Tts.CutKeepsText | api/tts.py:127-129 | cutting off the open piece keeps the visible characters read so far |
| Tts.SentenceStateKeepsText | api/tts.py:114-131 | the pieces cut so far hold the visible characters before the open piece |
| Tts.SentencePiecesKeepText | api/tts.py:109-135 | the sentence pieces of a chunk hold its visible characters in order |
| Tts.RefinedChunkKeepsText | api/tts.py:106-135 | what the second pass makes of one chunk holds the chunk's visible characters |
| Tts.RefineKeepsText | api/tts.py:104-135 | the second pass keeps the visible characters of all chunks in order |
| Tts.ChunksKeepText | api/tts.py:64-137 | the chunks, read in order, hold exactly the text's non-whitespace characters in order |
| Tts.PackStateBound | api/tts.py:85-97 | the open chunk and every closed chunk are at most two characters over the limit, or come from one oversize paragraph |
| Tts.PackedChunkBound | api/tts.py:82-101 | every packed chunk is within the limit plus the two-character separator, or is one oversize paragraph, stripped |
| Tts.ShortChunksPass | api/tts.py:105-107 | when every packed chunk fits, the second pass returns them unchanged |
| Tts.CutsNeedMax | api/tts.py:127 | a piece is cut only once it has reached the limit, so the pieces cut so far number at most the position divided by the limit |
| Tts.CutsAtSentenceEnds | api/tts.py:125-129 | every cut falls right after a sentence end |
| Tts.NoSentenceEndNoCut | api/tts.py:114-131 | with no sentence end in the text read, nothing is cut |
| Tts.NoSentenceEndWhole | api/tts.py:109-135 | a chunk with no sentence end comes back whole, stripped, however long it is |
| ResultParser.TopicTextNames | utils/result_parser.py:184-186 | the topic text names each of the first three topics |
| ParserSections.EarliestVariantIsEarliest | utils/result_parser.py:473-480 | the header variant chosen is the one whose first occurrence comes earliest |
| ParserText.BlankLinesHaveNoBullets | utils/result_parser.py:521-526 | lines that are all blank give no bullet points |
| Config.AddDatabaseKeepsOut | utils/config.py:49-59 | adding the database name brings in no character foreign to the URI, the name, '/' and '?' |

## Left out

- Language-model, crewai, HTTP, Wikipedia, database and file calls: their answers are parameters (the crew's text, the verifier's text for each claim, the Wikipedia result, the parsed JSON of a crew run); the calls themselves are not modelled.
- The `print` logging throughout the core, and the warning `register` prints when an id is registered again: it has no effect on state or results.
- Character classes: `lower()`, `upper()`, `\d`, `\w`, `[a-zA-Z]` and IGNORECASE are taken over ASCII letters and digits only; Python also maps and matches other Unicode letters and digits.
- A general regular-expression engine: each pattern of the parser is a dedicated scanner in `ParserPatterns`, which follows the engine's search order for that one pattern.
- ParserAgents.ExtractAgentOutputs: the agent pattern's answer group `([^\n](?:.+?))` is lazy with nothing after it, so it takes two characters; this is modelled as written, and the content filed for an agent is those two characters, stripped.
- ResultParser.SplitIntroAndItems: the offset is found in the stripped text and applied to the unstripped one; this is modelled as written (`SplitShiftedByLeadingSpace` shows the effect).
- TaskBase.ProcessInputData: the per-key dict branch can never be reached, since every dict has `get`; it is modelled on its own (`FormatDictSections`) and not wired into `ProcessInputData`.
- What `str()` renders for an arbitrary object is a parameter (the rendered text), as is whether the object is truthy.
- The `except` branch of `extract_additional_fields`: iterating the claim pattern's matches cannot raise, so the branch is never taken.
- JSON text: parsing and dumping are not modelled; a crew result is a parsed value (`None` for text that is not a JSON object, which is where the source catches the exception and returns the text unchanged), and numbers, booleans and null are one opaque kind. Key order of the resulting object is not modelled (a map).
- Non-string "output" values of an input with `get`: the modelled output is a text or absent.
- The Wikipedia lookup's exception: a failing lookup is `None`, the same as an empty result, which is what the source's `except` amounts to.
- LocalizationCrew and AdvancedMultilingualCrew `run_analysis`: task creation and the crew runs are not modelled; only the language setup, the culture table and the restructuring of the crew's result are. LocalizationCrew holds its multilingual crew's state by composition rather than as a subclass.
- The localization results merged into the record after the second crew run (`localizations`, `localization_error`): they depend only on the second run's JSON.
- The registry's module-level helpers (`register_agent`, `get_agent`, `get_all_agents`, `set_default_model`) and the global registry: each helper forwards to the same method of one shared `AgentRegistry`, whose behaviour is modelled; the shared instance itself is not.
- Registry.AgentRegistry.GetAllAgents: the order in which ids are visited is not modelled (a set of ids); for one model different ids have different keys, so the result does not depend on it.
- The agent classes and what constructing one does: an instance is known by its class id and model.
- `load_dotenv` and the getters in `utils/config.py` other than `get_mongodb_uri`: they only read one variable each.
- Text-to-speech audio request, temporary file and error handling of `text_to_speech`: only the length cap before the request is modelled.
- Tts.PackedChunkBound: stated for a non-negative `max_chunk_size`; with a negative limit every paragraph is closed on its own, a case the lemma does not cover.
- Agent execution with retries (`execute_with_agent`) and the creation of the task object in `create_task`: only the description it builds is modelled.
