# NIRD: the Linux-migration calculator and its games, in Dafny

This project models the core of the NIRD web site, which helps a school weigh
a move from Windows and Office to Linux. The model covers:

- **Calculations**: the impact calculator. Five questionnaire answers give an
  economic report (licences, the 10 % support, the Linux costs, the savings),
  an ecological report (PCs kept, CO2 and e-waste avoided), a fixed autonomy
  record and a four-phase roadmap.
- **NumberText**: the text-to-number readings the pages rely on. These are
  `parseInt(text) || 0` on the questionnaire inputs and the template literal
  that writes the pilot count.
- **Badges**: the badge board shown with the results.
- **Questionnaire**: the five-question questionnaire page.
- **Story**: the story mode. It has five scenes with sliders, an epilogue with
  easter eggs, and it hands the answers to the calculator.
- **QuestData, QuestCombat, QuestStory**: NIRD Quest, the five-chapter RPG.
  They cover its tables, its combat rules with the level-up loop and the
  achievements, and its screens and chapters.
- **ExpertQuiz**: the twenty-question quiz with three jokers and a certificate.
- **SoftwareSort**: the game of sorting free and proprietary programs into
  two bins.
- **PcRepair**: the 60-second PC repair game with its combo scoring.
- **EasterEggs**: the Konami code and the five-click burst of stars.

Every page handler is an atomic step on an immutable record. Randomness and the
clock are event parameters. JavaScript float arithmetic is read as the exact
integer operation it stands for. Two examples:

- `Math.floor(x * 1.5)` is `3 * x / 2`;
- `Math.round(a / b)` is `Num.RoundDiv`.

Where a page's timers read a stale record, or a handler never switches to the
screen that shows its choices, the main model follows the evident intent. The
code as written is modelled beside it, under "Findings".

## Model

| member | source | states |
|---|---|---|
| Num.RoundDiv | src/components/Badges.tsx:138 | the result is the nearest integer to a / b with halves rounded up, as `Math.round` does |
| Calculations.SupportCost | lib/calculations.ts:42-44 | support is a tenth of its subtotal: exactly a tenth on multiples of ten, and never more than the subtotal or below 0 for a non-negative subtotal |
| Calculations.EconomicImpactOf | lib/calculations.ts:62-64 | the Linux figures are the fixed 500 training, 2000 maintenance and 2500 total, whatever the answers |
| Calculations.SupportIsExactTenth | lib/calculations.ts:55-59 | the licence subtotal is always a multiple of 50, so support is exactly a tenth of it and the current total exactly eleven tenths |
| Calculations.SavingsClosedForm | lib/calculations.ts:51-81 | each PC costs 165 a year with Windows and 110 with Office; annual savings are that times the fleet minus 2000, five-year savings five times it minus 10500 |
| Calculations.NoLicencesMeansNegativeSavings | lib/calculations.ts:55-68 | without either licence the current cost is 0 and the savings are -2000 and -10500: nothing clamps them |
| Calculations.BreakEven | lib/calculations.ts:51-81 | annual savings are non-negative exactly from 8 PCs (both licences), 13 (Windows only) or 19 (Office only) |
| Calculations.SavingsMonotone | lib/calculations.ts:51-81 | a larger fleet or an extra licence never lowers the annual or five-year savings |
| Calculations.EconomicExample | lib/calculations.ts:51-81 | 50 PCs with both licences: 7500 + 5000 + 1250 = 13750 a year, 11750 saved a year, 58250 over five years |
| Calculations.PcsToReplace | lib/calculations.ts:97 | the kept PCs are the whole fleet from an average age of 5, otherwise 30 % of it rounded down; never negative, never more than the fleet |
| Calculations.EcologicalImpactOf | lib/calculations.ts:93-110 | the per-PC figures are 600 kg of CO2, 60 kg of e-waste and 4 more years of life |
| Calculations.Co2IsTenTimesWaste | lib/calculations.ts:97-103 | CO2 and e-waste count the same kept PCs, so CO2 is 600 per kept PC and ten times the e-waste, which lies between 0 and 60 per PC |
| Calculations.PcsToReplaceMonotoneInAge | lib/calculations.ts:97 | an older fleet of the same size never keeps fewer PCs |
| Calculations.AgeThresholdExample | lib/calculations.ts:97 | the cut-off is sharp: 100 PCs aged 4 keep 30, aged 5 keep 100 |
| Calculations.PilotCount | lib/calculations.ts:155 | the pilot size is `min(5, ceil(n / 10))`: 5 exactly above 40 PCs, otherwise the smallest r with n <= 10 r, and at least 1 for a non-empty fleet |
| Calculations.GenerateRoadmap | lib/calculations.ts:133-188 | four phases numbered 1 to 4 with four actions each; phase 2 starts with the pilot action |
| Calculations.RoadmapOnlyPilotVaries | lib/calculations.ts:133-188 | two roadmaps agree everywhere except phase 2's first action, and are equal exactly when the pilot counts are |
| Calculations.PilotActionReadsBack | lib/calculations.ts:155 | the text after "Migration de " parses back to the pilot count |
| Calculations.PilotExamples | lib/calculations.ts:155 | 10 PCs pilot on 1 machine; 1000 PCs are capped at 5 |
| Calculations.CalculateImpact | lib/calculations.ts:195-207 | the report is consistent: the current total exceeds the annual savings by the 2000 maintenance, CO2 is ten times the e-waste, autonomy is the fixed record, four phases |
| Calculations.PartsReadOnlyTheirInputs | lib/calculations.ts:195-207 | the economic part reads only the fleet and the two licences, the ecological part only the fleet and the age, the roadmap only the fleet |
| Calculations.MaintenanceCostUnused | lib/calculations.ts:195-207 | the current maintenance cost is collected but changes nothing in the report |
| Calculations.WindowsToggleScope | lib/calculations.ts:55-68 | the Windows flag moves only the Windows cost and the totals: 150 and 165 per PC a year, 825 over five years |
| Calculations.ZeroFleet | lib/calculations.ts:51-112 | an empty fleet costs nothing and keeps no PC |
| NumberText.DigitIn | src/app/questionnaire/page.tsx:78 | a digit's value is below its radix; in radix 10 exactly '0' to '9' are digits |
| NumberText.DigitChar | lib/calculations.ts:155 | the character written for a digit reads back as that digit |
| NumberText.ShowNat | lib/calculations.ts:155 | a rendered natural number is non-empty, all digits, and has no leading zero |
| NumberText.ShowInt | lib/calculations.ts:155 | a rendered integer starts with '-' exactly when it is negative |
| NumberText.TrimStart | src/app/questionnaire/page.tsx:78 | `parseInt` drops a prefix made only of white space, and what remains does not start with white space |
| NumberText.DigitRun | src/app/questionnaire/page.tsx:78 | the digit run stops at the first character that is not a digit |
| NumberText.ShowNatValue | lib/calculations.ts:155 | the rendering of n is all digits and denotes n |
| NumberText.DigitRunStopsAt | src/app/questionnaire/page.tsx:78 | a digit string followed by a non-digit is read exactly up to its end |
| NumberText.MagnitudeOfShowNat | src/app/questionnaire/page.tsx:78 | the magnitude read from a rendered number followed by other text is the number |
| NumberText.ParseShowNat | src/app/questionnaire/page.tsx:78 | `parseInt` with the fallback to 0 gives back a rendered natural number even when non-digit text follows it |
| NumberText.ParseAfterMinus | src/app/questionnaire/page.tsx:78 | after a leading minus sign, `parseInt` reads the negated magnitude of what follows |
| NumberText.ParseShowNegative | src/app/questionnaire/page.tsx:78 | a minus sign followed by a rendered natural number reads back as its negation |
| NumberText.ParseShowInt | src/app/questionnaire/page.tsx:78 | `parseInt` gives back every rendered integer, negative ones included |
| NumberText.NonNumericIsZero | src/app/questionnaire/page.tsx:78 | text whose first non-blank character is neither a sign nor a digit is NaN, and so reads as 0 |
| Badges.PcSauves | src/components/Badges.tsx:29 | the PCs saved are the CO2 figure divided by 600, rounded down |
| Badges.BadgesFor | src/components/Badges.tsx:33-120 | nine badges whose tiers run bronze, silver, gold in each of the three categories |
| Badges.UnlockedCount | src/components/Badges.tsx:122 | the unlocked count never exceeds the number of badges |
| Badges.WithPrefix | src/components/Badges.tsx:165-191 | a category section is a sub-list of the board |
| Badges.PcSauvesIsPcsToReplace | src/components/Badges.tsx:29 | the board's PCs saved are exactly the PCs the calculator keeps |
| Badges.TiersNested | src/components/Badges.tsx:33-120 | a higher tier is unlocked only together with the tier below it |
| Badges.EconomicThresholdStrict | src/components/Badges.tsx:41-59 | the economic thresholds are strict: 5000 a year unlocks none of them |
| Badges.UnlockedCountStep | src/components/Badges.tsx:122 | each further badge adds one to the count exactly when it is unlocked |
| Badges.UnlockedCountFull | src/components/Badges.tsx:122-123 | the count equals the number of badges exactly when every badge is unlocked |
| Badges.AtLeastThreeUnlocked | src/components/Badges.tsx:30 | the autonomy score is fixed at 100, so the three autonomy badges are always unlocked |
| Badges.AllUnlockedIff | src/components/Badges.tsx:199 | the congratulations show exactly when savings pass 30000 and more than 50 PCs are saved |
| Badges.CompletionFullIff | src/components/Badges.tsx:138 | the completion lies between 0 and 100 and reads 100 exactly when every badge is unlocked |
| Badges.WithPrefixConcat | src/components/Badges.tsx:165 | filtering by prefix distributes over concatenation |
| Badges.WithPrefixAll | src/components/Badges.tsx:165 | a list whose ids all carry the prefix is kept whole |
| Badges.WithPrefixNone | src/components/Badges.tsx:165 | a list where no id carries the prefix gives nothing |
| Badges.PrefixOfConcat | src/components/Badges.tsx:165 | a prefix followed by anything starts with that prefix |
| Badges.FirstCharMismatch | src/components/Badges.tsx:165 | a different first character rules a prefix out |
| Badges.IdPrefixes | src/components/Badges.tsx:33-120 | ids 1-3 start with "eco", 4-6 with "green", 7-9 with "autonomy", and no other id does |
| Badges.SectionByPrefix | src/components/Badges.tsx:165-191 | when the ids carrying a prefix form one block, the filter returns that block in order |
| Badges.CategoriesPartition | src/components/Badges.tsx:165-191 | the three sections are the three blocks of three badges, in tier order |
| Badges.EconomicBadgesForBothLicences | src/components/Badges.tsx:41-59 | with both licences the economic badges need at least 26, 62 and 117 PCs |
| Badges.GreenBadgesForYoungFleet | src/components/Badges.tsx:70-88 | below the replacement age the green badges need at least 37, 104 and 170 PCs |
| Questionnaire.Step | src/app/questionnaire/page.tsx:23-62 | the page stays valid; it submits exactly on an answered fifth question and then hands over its answers, which are submittable; it leaves for home exactly on "Retour" from question 1; an input never changes the question |
| Questionnaire.Run | src/app/questionnaire/page.tsx:23-62 | every sequence of actions keeps the page valid and submits only submittable answers |
| Questionnaire.InitialValid | src/app/questionnaire/page.tsx:14-21 | the page opens valid, on question 1, which is not answered yet |
| Questionnaire.RunAppend | src/app/questionnaire/page.tsx:23-45 | running two sequences of actions is running the first, then the second from where it left the page |
| Questionnaire.RunStepAt | src/app/questionnaire/page.tsx:23-45 | a sequence of actions runs one step at a time |
| Questionnaire.ScriptFleetPart | src/app/questionnaire/page.tsx:66-84 | typing a fleet size that reads back as a positive count, then "Suivant", stores it and opens question 2 |
| Questionnaire.ScriptLicencePart | src/app/questionnaire/page.tsx:88-166 | choosing both licences, with "Suivant" after each, stores them and opens question 4 |
| Questionnaire.ScriptAgePart | src/app/questionnaire/page.tsx:168-202 | the age button, when the age is not 0, stores the age and stays on question 4 |
| Questionnaire.ScriptLastPart | src/app/questionnaire/page.tsx:214-246 | from question 4, typing the maintenance cost and going on submits the answers unchanged |
| Questionnaire.ScriptSubmits | src/app/questionnaire/page.tsx:23-246 | every submittable answer set can be submitted as it is |
| Questionnaire.BackThenForward | src/app/questionnaire/page.tsx:27-45 | "Retour" then "Suivant" returns to the same question with the same answers |
| Questionnaire.FirstQuestionBlocksNonPositive | src/app/questionnaire/page.tsx:47-50 | an empty, non-numeric or non-positive fleet keeps "Suivant" disabled on question 1 |
| Story.SceneSlider | src/app/histoire/page.tsx:122-687 | each slider has a positive step and starts at a default inside its range |
| Story.WithField | src/app/histoire/page.tsx:38-39 | a scene's partial update sets its own figure and keeps the other four |
| Story.ToCalculatorInput | src/app/histoire/page.tsx:48-56 | the calculator receives the figures as they are, and "yes" for a licence exactly when its count is positive |
| Story.AfterSubmit | src/app/histoire/page.tsx:38-46 | submitting scene i completes i + 1 scenes and keeps the story valid |
| Story.SubmitKeepsFields | src/app/histoire/page.tsx:38-46 | after a submission, the done scenes hold slider values and the others still hold 0 |
| Story.Step | src/app/histoire/page.tsx:34-63 | the story stays valid; it reaches the results only from the epilogue, with every figure set, handing over exactly the converted figures |
| Story.OpenFirstScene | src/app/histoire/page.tsx:34-36 | leaving the intro opens scene 1 at its default slider position and keeps the story valid |
| Story.SceneStep | src/app/histoire/page.tsx:38-46 | inside a scene, an allowed slider position is shown and a submission merges the figure; the story stays valid |
| Story.EpilogueStep | src/app/histoire/page.tsx:851-857 | the epilogue moves on one step at a time and reaches the results only on "next" at the end or on skip, with every figure set |
| Story.EpilogueGathered | src/app/histoire/page.tsx:38-46 | in the epilogue all five figures are slider values |
| Story.Run | src/app/histoire/page.tsx:34-63 | any sequence of actions keeps the story valid and reaches the results only with figures the sliders allow |
| Story.SavingsInThousands | src/app/histoire/page.tsx:782-785 | the "k€" figure is the savings divided by 1000 and rounded to the nearest integer |
| Story.EasterEggOf | src/app/histoire/page.tsx:775-795 | the big-school egg shows above 200 PCs; otherwise the savings egg shows above 20000; otherwise the survivors egg shows above 6 years |
| Story.SavedPcsClaim | src/app/histoire/page.tsx:824-826 | the pupil claims the whole fleet above 6 years, otherwise `min(nbPCs, 30)`: at most 30, at most the fleet, and one of the two |
| Story.InitialValid | src/app/histoire/page.tsx:22-32 | the story opens valid on the intro, all figures at 0 |
| Story.RunStepAt | src/app/histoire/page.tsx:34-63 | a sequence of actions runs one step at a time |
| Story.SceneAnswered | src/app/histoire/page.tsx:38-46 | sliding then submitting a scene stores its figure and opens the next scene at its default |
| Story.EpilogueToEnd | src/app/histoire/page.tsx:851-857 | five "next" clicks read the epilogue through and hand its data to the results |
| Story.ScriptFirstScenes | src/app/histoire/page.tsx:122-444 | scenes 1 to 3 store the fleet and the two licence counts |
| Story.ScriptLastScenes | src/app/histoire/page.tsx:486-687 | scenes 4 and 5 store the age and the maintenance cost and open the epilogue |
| Story.ScriptReachesResults | src/app/histoire/page.tsx:34-63 | every figure set the sliders allow can be played through to the results unchanged |
| Story.ProgressIsTwentyPerScene | src/app/histoire/page.tsx:91 | the progress over scene i is exactly 20 (i + 1) percent |
| Story.LicenceCountsIrrelevant | src/app/histoire/page.tsx:48-56 | only whether a licence count is positive reaches the calculator |
| Story.ApproximationOmitsSupport | src/app/histoire/page.tsx:771 | with every PC fully licensed, the epilogue's savings fall short of the calculator's by the 10 % support: 25 per PC |
| Story.EggShownIff | src/app/histoire/page.tsx:775-795 | an egg shows exactly when one of its three conditions holds |
| Story.EconomicDialogueIff | src/app/histoire/page.tsx:816-817 | the accountant quotes the amount exactly when the savings pass 20000, and the amount is then at least 20 |
| Story.AgeMessageMonotone | src/app/histoire/page.tsx:493-497 | the age verdict never improves as the age grows |
| Story.ProlongHintMatchesCalculator | src/app/histoire/page.tsx:589 | the "longer life" hint shows exactly when the calculator counts the whole fleet as kept |
| Story.SavedClaimVersusCalculator | src/app/histoire/page.tsx:824-826 | above 6 years the pupil's count is the calculator's; at 5 or 6 years above 30 PCs the pupil says 30 where the calculator keeps every PC |
| QuestData.IndexOf | src/app/jeux/nird-quest/page.tsx:81 | `find` returns the first entry with the id, or nothing when there is none |
| QuestData.Ids | src/data/nird-quest-data.ts:3-73 | the ids of a table, one per entry, in order; the companion and achievement tables both read their ids through it |
| QuestData.Recruit | src/app/jeux/nird-quest/page.tsx:435-453 | recruiting sets the flag on the companion `find` returns and changes nothing else |
| QuestData.Unlock | src/app/jeux/nird-quest/page.tsx:237-255 | unlocking sets the flag on the achievement `find` returns and changes nothing else |
| QuestData.InitialCompanionsFacts | src/data/nird-quest-data.ts:3-28 | three distinct companions, none recruited |
| QuestData.InitialAchievementsFacts | src/data/nird-quest-data.ts:30-73 | six distinct achievements, none unlocked |
| QuestData.DistributionsFacts | src/data/nird-quest-data.ts:75-100 | the distributions are ubuntu, debian and arch, every stat positive |
| QuestData.RecruitSets | src/app/jeux/nird-quest/page.tsx:435-453 | after recruiting, the companion reads as recruited exactly when the table has it, and recruitment only grows |
| QuestData.RecruitEffect | src/app/jeux/nird-quest/page.tsx:435-453 | recruiting one companion changes no other companion |
| QuestData.UnlockSets | src/app/jeux/nird-quest/page.tsx:237-255 | after unlocking, the achievement reads as unlocked exactly when the table has it, and unlocking only grows |
| QuestData.UnlockEffect | src/app/jeux/nird-quest/page.tsx:237-255 | unlocking one achievement changes no other achievement |
| QuestData.CompanionsGrowTransitive | src/app/jeux/nird-quest/page.tsx:435-453 | recruitment growth composes |
| QuestData.AchievementsGrowTransitive | src/app/jeux/nird-quest/page.tsx:237-255 | unlocking growth composes |
| QuestData.GrowKeepsUnlocked | src/app/jeux/nird-quest/page.tsx:237-255 | an unlocked achievement stays unlocked |
| QuestCombat.StartFight | src/app/jeux/nird-quest/page.tsx:374-379 | a fight starts against the given enemy with one log line |
| QuestCombat.TechnicianBoost | src/app/jeux/nird-quest/page.tsx:84 | the boost is 115 % of the damage rounded down |
| QuestCombat.CalculateDamage | src/app/jeux/nird-quest/page.tsx:79-88 | the damage is at least 1; it is unchanged without the technician and 115 % rounded down with him |
| QuestCombat.SpecialDamage | src/app/jeux/nird-quest/page.tsx:98 | the special attack hits for 180 % of the attack, rounded down |
| QuestCombat.Hit | src/app/jeux/nird-quest/page.tsx:108 | a hit is attack minus defence, never below 1 |
| QuestCombat.AfterHit | src/app/jeux/nird-quest/page.tsx:110 | hit points never drop below 0, reach 0 exactly when the hit is at least the HP, and otherwise drop by the hit |
| QuestCombat.HealAmount | src/app/jeux/nird-quest/page.tsx:169 | the patch is worth 30 % of the maximum HP, rounded down |
| QuestCombat.TeacherBoost | src/app/jeux/nird-quest/page.tsx:222 | the teacher's bonus is 120 % of the XP, rounded down |
| QuestCombat.XpGain | src/app/jeux/nird-quest/page.tsx:217-222 | the XP reward is unchanged without the teacher and 120 % rounded down with the teacher |
| QuestCombat.LevelOnce | src/app/jeux/nird-quest/page.tsx:230-237 | a level-up spends the threshold, adds a level, 20 max HP (fully healed), 3 attack and 2 defence, and raises the threshold by half, rounded down |
| QuestCombat.LevelUp | src/app/jeux/nird-quest/page.tsx:229-244 | after the loop the XP is below the threshold; the levels gained are paid for in XP and give their stat gains; `level_5` unlocks exactly when the loop crosses level 5; nothing else changes |
| QuestCombat.LevelFromXp | src/app/jeux/nird-quest/page.tsx:229-232 | the loop gains exactly k levels when the XP covers the first k thresholds and not the next one |
| QuestCombat.LevelPlayerStep | src/app/jeux/nird-quest/page.tsx:229-244 | one pass of the loop followed by the remaining passes pays the current threshold plus the rest, and adds one more level's stat gains |
| QuestCombat.LevelFiveStep | src/app/jeux/nird-quest/page.tsx:236-242 | one pass of the loop followed by the remaining passes unlocks `level_5` exactly when the levels cross 5, and nothing else |
| QuestCombat.LevelUpLoop | src/app/jeux/nird-quest/page.tsx:229-244 | the `while` loop computes the same player and achievements as the recursive definition |
| QuestCombat.VictoryUnlocks | src/app/jeux/nird-quest/page.tsx:246-255 | a victory unlocks `first_blood`, and `rich` exactly from a budget of 5000, and no other achievement |
| QuestCombat.GainXp | src/app/jeux/nird-quest/page.tsx:214-244 | the reward, with the teacher's fifth once recruited, is added to the XP; what is left is below the new threshold, and the levels gained are paid for at thresholds growing by half each time, with 20 HP, 3 attack and 2 defence each and a full heal; `level_5` unlocks exactly when the levels cross 5 |
| QuestCombat.HandleVictory | src/app/jeux/nird-quest/page.tsx:214-260 | a victory adds the budget reward and the XP reward with the teacher's bonus, spent on level-ups as `GainXp` states; it unlocks `first_blood`, `rich` from 5000 budget and `level_5` on crossing level 5, and nothing else; the record stays well formed |
| QuestCombat.EnemyResponse | src/app/jeux/nird-quest/page.tsx:189-211 | the enemy's attack costs the player the hit and nothing else, and defeats the player exactly at 0 HP |
| QuestCombat.StrikeDamage | src/app/jeux/nird-quest/page.tsx:94-108 | the player's attack always does at least 1 damage |
| QuestCombat.Strike | src/app/jeux/nird-quest/page.tsx:91-134 | a special attack without 10 time only logs; otherwise it pays its cost and hits, and the fight is won exactly when the enemy reaches 0 HP, then the victory is handled |
| QuestCombat.Defend | src/app/jeux/nird-quest/page.tsx:137-157 | the firewall meets the enemy's attack with 5 more defence, then restores it; only the HP changes |
| QuestCombat.HealedHp | src/app/jeux/nird-quest/page.tsx:169-170 | the patch never lowers HP and never raises it above the maximum |
| QuestCombat.Heal | src/app/jeux/nird-quest/page.tsx:160-186 | below 20 budget the patch only logs; otherwise it costs 20 budget, heals, then takes the enemy's attack |
| QuestCombat.HealAsWrittenIsLost | src/app/jeux/nird-quest/page.tsx:160-211 | as written, the patch costs 20 budget and leaves the HP where the enemy's attack alone would |
| QuestCombat.HealAsWrittenExample | src/app/jeux/nird-quest/page.tsx:160-211 | at 50 of 100 HP against the first virus, the patch should leave 77 HP; as written it leaves 47 |
| QuestCombat.HealCorrectedHelps | src/app/jeux/nird-quest/page.tsx:160-186 | the corrected patch never leaves less HP than the one as written, and leaves more whenever it heals |
| QuestCombat.DefendAsWrittenIsUseless | src/app/jeux/nird-quest/page.tsx:137-211 | as written, the firewall's outcome is the enemy's plain attack |
| QuestCombat.DefendCorrectedProtects | src/app/jeux/nird-quest/page.tsx:137-157 | the corrected firewall never makes a hit worse and takes 5 off every hit above 5 |
| QuestCombat.FinishingSpecialIsFree | src/app/jeux/nird-quest/page.tsx:119-128 | as written, a special attack that wins the fight costs no time; corrected, it costs 10 |
| QuestCombat.FinishingSpecialExample | src/app/jeux/nird-quest/page.tsx:119-128 | a new game's special attack on a 1-HP virus leaves 90 time, but 100 as written |
| QuestCombat.NewGameFacts | src/app/jeux/nird-quest/page.tsx:23-51 | a new game starts at level 1 with 100 HP, 10 attack, 5 defence, budget 1000, time 100, moral 50, chapter 1, with untouched tables |
| QuestCombat.LevelThresholdsExample | src/app/jeux/nird-quest/page.tsx:232 | the thresholds run 100, 150, 225, 337, 505, so four level-ups cost 812 XP |
| QuestCombat.FifthLevelExample | src/app/jeux/nird-quest/page.tsx:229-242 | 812 XP take a new player to exactly level 5 |
| QuestCombat.ConsumedGrows | src/app/jeux/nird-quest/page.tsx:229-244 | more level-ups always consume more XP |
| QuestCombat.ConsumedStep | src/app/jeux/nird-quest/page.tsx:229-244 | one more level-up consumes the current threshold, which stays positive |
| QuestCombat.TechnicianBonusMonotone | src/app/jeux/nird-quest/page.tsx:79-88 | recruiting the technician never lowers the damage, and raises it by at most 15 % plus one |
| QuestStory.RecruitIn | src/app/jeux/nird-quest/page.tsx:435-453 | recruiting changes only the companions, sets the given one and no other |
| QuestStory.UnlockIn | src/app/jeux/nird-quest/page.tsx:873-902 | unlocking changes only the achievements, sets the given one and no other |
| QuestStory.Fights | src/app/jeux/nird-quest/page.tsx:374-379 | a fight against the chapter's enemy is a valid session |
| QuestStory.StartChapter | src/app/jeux/nird-quest/page.tsx:905-917 | the intended resume: a screen exactly for chapters 1 to 5, with the loaded record, and a valid session; the screens it opens are stated by `ResumeMatchesAdvance` and, for chapter 3's principal's question, `ChapterThreeResumeAsWritten` (as written the page stays on the menu, see "Findings") |
| QuestStory.StartChapterAsWritten | src/app/jeux/nird-quest/page.tsx:613-644 | resuming as written: chapter 3 leaves the page on the menu with the loaded record; every other chapter resumes as intended |
| QuestStory.AcceptMission | src/app/jeux/nird-quest/page.tsx:297-334 | accepting the mission leads to a valid fight |
| QuestStory.ContinueChapter1 | src/app/jeux/nird-quest/page.tsx:466-533 | the end of chapter 1 leads to a valid fight of chapter 2 |
| QuestStory.FinishChapter2 | src/app/jeux/nird-quest/page.tsx:595-644 | the end of chapter 2 leads to the principal's question in chapter 3 |
| QuestStory.ConvincePrincipal | src/app/jeux/nird-quest/page.tsx:646-739 | either outcome leads to a valid session; a convinced principal adds exactly 25 moral and 1000 budget and nothing else; an unconvinced one costs exactly 20 moral and 30 time and moves to chapter 4 |
| QuestStory.FinishChapter3 | src/app/jeux/nird-quest/page.tsx:741-789 | the end of chapter 3 leads to a valid fight of chapter 4 |
| QuestStory.Chapter4Rewards | src/app/jeux/nird-quest/page.tsx:791-832 | the chapter 4 finale adds 5000 budget, sets moral to 100, moves to chapter 5, recruits the teacher, and unlocks `all_companions` exactly when everyone is then recruited |
| QuestStory.FinishChapter4 | src/app/jeux/nird-quest/page.tsx:791-871 | the chapter 4 finale leads to a valid final fight |
| QuestStory.FinishGame | src/app/jeux/nird-quest/page.tsx:873-902 | the end of the game shows the achievements, with `hero` unlocked |
| QuestStory.AfterVictory | src/app/jeux/nird-quest/page.tsx:920-934 | the victory screen's button acts exactly in chapters 1 to 5; only chapters 4 and 5 change the achievements, through their finales; chapter 2 leads to Luna's offer as intended (as written it does not, see "Findings") |
| QuestStory.AfterVictoryAsWritten | src/app/jeux/nird-quest/page.tsx:535-562 | the button as written: in chapter 2 the victory screen stays; in every other chapter it acts as intended |
| QuestStory.OnChoice | src/app/jeux/nird-quest/page.tsx:297-739 | each offered choice leads to a valid session and never changes the achievements |
| QuestStory.RoundOf | src/app/jeux/nird-quest/page.tsx:1234-1264 | a combat round keeps the companions and chapter, and can only unlock `first_blood`, `rich` or `level_5` |
| QuestStory.StrikeKeeps | src/app/jeux/nird-quest/page.tsx:91-135 | an attack or special attack keeps what every round keeps |
| QuestStory.WinKeeps | src/app/jeux/nird-quest/page.tsx:214-262 | a winning attack hands the record to the victory handler, which keeps companions and chapter and unlocks only `first_blood`, `rich` or `level_5` |
| QuestStory.DefendKeeps | src/app/jeux/nird-quest/page.tsx:137-158 | the firewall round keeps what every round keeps |
| QuestStory.HealKeeps | src/app/jeux/nird-quest/page.tsx:160-187 | the patch round keeps what every round keeps |
| QuestStory.PlayRound | src/app/jeux/nird-quest/page.tsx:1111-1350 | a combat round leads to a valid combat, victory or game-over screen, unlocking at most the victory's achievements |
| QuestStory.Step | src/app/jeux/nird-quest/page.tsx:938-1520 | every click keeps the session valid; a load and the victory screen's button follow the intended screens, and the code as written is under "Findings" |
| QuestStory.Run | src/app/jeux/nird-quest/page.tsx:938-1520 | every sequence of clicks keeps the session valid |
| QuestStory.NewGameThenAccept | src/app/jeux/nird-quest/page.tsx:23-51 | the intended behaviour: a new game, then accepting the mission, gives +10 moral and the fight against the first virus (on a fresh page the closure reads no record and accepting does nothing, as "Left out" says) |
| QuestStory.PrincipalConvincedIff | src/app/jeux/nird-quest/page.tsx:646-739 | the budget argument always convinces, ecology only with Luna, technology only with Alex; convincing adds exactly 25 moral and 1000 budget before the fight of chapter 3; failing costs 20 moral and 30 time and skips to chapter 4 |
| QuestStory.StepProgress | src/app/jeux/nird-quest/page.tsx:263-934 | in play the chapter never goes back and moves forward by at most one; recruitment and achievements only grow |
| QuestStory.ChoiceProgress | src/app/jeux/nird-quest/page.tsx:297-739 | a story choice moves the chapter forward by at most one, only recruits, and leaves the achievements as they were |
| QuestStory.VictoryProgress | src/app/jeux/nird-quest/page.tsx:920-934 | the victory screen's button moves the chapter forward by at most one and only recruits and unlocks |
| QuestStory.StepNeverUnlocksPacifist | src/data/nird-quest-data.ts:67-72 | no click unlocks `pacifist` |
| QuestStory.PacifistNeverUnlocked | src/data/nird-quest-data.ts:67-72 | no sequence of clicks unlocks `pacifist`: the achievement cannot be earned |
| QuestStory.HeroOnlyAtTheEnd | src/app/jeux/nird-quest/page.tsx:873-902 | `hero` is unlocked by the victory of chapter 5 and by no other click in play |
| QuestStory.HeroAfterVictory | src/app/jeux/nird-quest/page.tsx:873-934 | the victory screen's button unlocks `hero` exactly in chapter 5 |
| QuestStory.NotUnlockedByChoice | src/app/jeux/nird-quest/page.tsx:297-739 | no story choice unlocks any achievement |
| QuestStory.NotUnlockedByRound | src/app/jeux/nird-quest/page.tsx:1111-1350 | a combat round unlocks nothing but `first_blood`, `rich` or `level_5` |
| QuestStory.NotUnlockedAfterVictory | src/app/jeux/nird-quest/page.tsx:920-934 | the victory screen's button unlocks nothing but `all_companions` or `hero` |
| QuestStory.AllCompanionsIff | src/app/jeux/nird-quest/page.tsx:791-832 | `all_companions` unlocks at the end of chapter 4 exactly when Alex and Luna were both recruited |
| QuestData.AllRecruitedIff | src/data/nird-quest-data.ts:3-28 | over the three companions of the table, all are recruited exactly when Alex, Luna and the teacher each are |
| QuestStory.ResumeMatchesAdvance | src/app/jeux/nird-quest/page.tsx:905-934 | with the intended resume, each chapter's end lands where resuming a save of the next chapter lands; as written, the save taken at the end of chapter 2 resumes elsewhere |
| QuestStory.ChapterThreeResumeAsWritten | src/app/jeux/nird-quest/page.tsx:613-644 | as written, a chapter-3 save resumes on the menu, and no click other than a load or a new game moves the page: the principal's question never shows; the intended resume shows it |
| QuestStory.ChapterTwoVictoryAsWritten | src/app/jeux/nird-quest/page.tsx:535-562 | as written, the chapter-2 victory button gives back the session it was pressed on, so Luna's offer never shows; the intended continuation shows it |
| ExpertQuiz.Initial | src/components/games/ExpertQuizGame.tsx:216-228 | the quiz opens on question 1 with no answer, no score, no joker used |
| ExpertQuiz.WrongAnswers | src/components/games/ExpertQuizGame.tsx:266-276 | the three wrong answers are exactly the answers other than the right one, in order |
| ExpertQuiz.Eliminate | src/components/games/ExpertQuizGame.tsx:266-276 | the 50/50 strikes out two different wrong answers and spares the drawn one |
| ExpertQuiz.Choose | src/components/games/ExpertQuizGame.tsx:242-252 | choosing an answer keeps the quiz valid |
| ExpertQuiz.NextQuestion | src/components/games/ExpertQuizGame.tsx:254-264 | the next question opens with a clean slate, or the last question finishes the quiz; score, mistakes and jokers carry over |
| ExpertQuiz.Advance | src/components/games/ExpertQuizGame.tsx:254-264 | the next button keeps the quiz valid and leaves score and mistakes alone |
| ExpertQuiz.StrikeOut | src/components/games/ExpertQuizGame.tsx:266-276 | the 50/50 keeps the quiz valid: the struck answers are wrong ones and the chosen answer is not among them |
| ExpertQuiz.AskAudience | src/components/games/ExpertQuizGame.tsx:278-295 | asking the audience keeps the quiz valid and scores nothing |
| ExpertQuiz.SkipQuestion | src/components/games/ExpertQuizGame.tsx:297-302 | skipping keeps the quiz valid, counting the skipped question as dealt with |
| ExpertQuiz.Joke | src/components/games/ExpertQuizGame.tsx:266-302 | no joker changes the score or the mistakes |
| ExpertQuiz.Step | src/components/games/ExpertQuizGame.tsx:230-302 | every event keeps the quiz valid, and only a retry lowers the score or the mistakes |
| ExpertQuiz.Percentage | src/components/games/ExpertQuizGame.tsx:304-306 | the percentage is 5 per right answer, between 0 and 100 |
| ExpertQuiz.CertificateByScore | src/components/games/ExpertQuizGame.tsx:308-314 | the certificates need 18, 15 and 12 right answers out of 20 |
| ExpertQuiz.CertificateMonotone | src/components/games/ExpertQuizGame.tsx:308-314 | a better score never earns a lower certificate |
| ExpertQuiz.SelectScores | src/components/games/ExpertQuizGame.tsx:242-252 | a chosen answer is locked in and adds one to the score exactly when it is the bank's answer, otherwise one mistake |
| ExpertQuiz.AnswerLocked | src/components/games/ExpertQuizGame.tsx:242-302 | once an answer is chosen, no other answer and no joker changes anything |
| ExpertQuiz.JokerOnce | src/components/games/ExpertQuizGame.tsx:266-302 | each joker works once per game |
| ExpertQuiz.FiftyFiftyKeepsRight | src/components/games/ExpertQuizGame.tsx:266-276 | the 50/50 never strikes out the right answer, and leaves one wrong answer standing |
| ExpertQuiz.SkipMovesOn | src/components/games/ExpertQuizGame.tsx:297-302 | skipping moves on without scoring, and finishes the quiz exactly on the last question |
| ExpertQuiz.ResetRestores | src/components/games/ExpertQuizGame.tsx:230-240 | retrying restores the opening state |
| ExpertQuiz.Play | src/components/games/ExpertQuizGame.tsx:242-264 | answering a sequence of questions keeps the quiz valid |
| ExpertQuiz.RightCount | src/components/games/ExpertQuizGame.tsx:16-212 | the right answers of a sequence are at most its length |
| ExpertQuiz.PlayCounts | src/components/games/ExpertQuizGame.tsx:242-264 | without jokers the score counts exactly the answers matching the bank, the mistakes count the rest, and the quiz ends after the twentieth |
| ExpertQuiz.AnswerThenNext | src/components/games/ExpertQuizGame.tsx:242-264 | one answer then the next button scores one right or one mistake and opens the next question, or finishes after the twentieth |
| ExpertQuiz.PerfectRun | src/components/games/ExpertQuizGame.tsx:242-314 | twenty right answers finish the quiz at 20 points with the top certificate |
| ExpertQuiz.BankAnswersValid | src/components/games/ExpertQuizGame.tsx:16-212 | each right answer in the bank is one of its four answers |
| ExpertQuiz.AllRight | src/components/games/ExpertQuizGame.tsx:16-212 | answers that match the bank all count |
| SoftwareSort.Catalogue | src/components/games/SoftwareSortGame.tsx:15-31 | the catalogue holds ids 1 to 15 in order |
| SoftwareSort.Put | src/components/games/SoftwareSortGame.tsx:70-97 | replacing one list leaves the other two and the drag state as they were |
| SoftwareSort.Deal | src/components/games/SoftwareSortGame.tsx:49-60 | a reset deals the shuffle into the pile, empties the bins and starts the clock |
| SoftwareSort.Remove | src/components/games/SoftwareSortGame.tsx:77-83 | filtering out an id removes every copy of it and keeps everything else |
| SoftwareSort.RightCount | src/components/games/SoftwareSortGame.tsx:112-120 | the right placements are all of a bin exactly when every program in it belongs there |
| SoftwareSort.TimeBonus | src/components/games/SoftwareSortGame.tsx:122-124 | the time bonus is between 0 and 500, positive under 1000 seconds, and 0 from then on |
| SoftwareSort.Tally | src/components/games/SoftwareSortGame.tsx:109-120 | every program in the bins is either right or a mistake |
| SoftwareSort.FinishWith | src/components/games/SoftwareSortGame.tsx:105-133 | the game ends at the given time with the bins' mistakes and a score of at least 100 per right program minus 50 per mistake, and never below 0 |
| SoftwareSort.Move | src/components/games/SoftwareSortGame.tsx:70-97 | a drop moves the dragged program into the target bin, out of where it was, keeping every program exactly once |
| SoftwareSort.Step | src/components/games/SoftwareSortGame.tsx:49-133 | every event keeps the fifteen programs, each exactly once |
| SoftwareSort.OnlyOnce | src/components/games/SoftwareSortGame.tsx:70-97 | a program counted once overall sits once in its list |
| SoftwareSort.PutPrograms | src/components/games/SoftwareSortGame.tsx:70-97 | replacing a list changes the programs by exactly the lists' difference |
| SoftwareSort.RestoreOne | src/components/games/SoftwareSortGame.tsx:70-97 | removing a program counted once and adding it back restores the collection |
| SoftwareSort.MoveKeepsPrograms | src/components/games/SoftwareSortGame.tsx:70-97 | taking a program out of one list and appending it to another keeps the programs |
| SoftwareSort.RightCountAppend | src/components/games/SoftwareSortGame.tsx:112-120 | counting right placements distributes over concatenation |
| SoftwareSort.CountOdds | src/components/games/SoftwareSortGame.tsx:15-31 | ids 1 to n in order hold (n + 1) / 2 libre programs and n / 2 proprietary ones, libre being the odd ids |
| SoftwareSort.CatalogueSplit | src/components/games/SoftwareSortGame.tsx:15-31 | the catalogue holds 8 libre programs and 7 proprietary ones |
| SoftwareSort.CatalogueOnce | src/components/games/SoftwareSortGame.tsx:15-31 | each catalogue id appears once |
| SoftwareSort.DistinctOnce | src/components/games/SoftwareSortGame.tsx:15-31 | a sequence without repeats counts each element at most once |
| SoftwareSort.BinsHoldAll | src/components/games/SoftwareSortGame.tsx:366-378 | once the pile is empty, the bins hold all fifteen programs |
| SoftwareSort.BinsHoldAllButOne | src/components/games/SoftwareSortGame.tsx:99-103 | with one program left in the pile, the bins hold the other fourteen |
| SoftwareSort.FinishScore | src/components/games/SoftwareSortGame.tsx:105-133 | with k programs in the wrong bin, the score is 100 (15 - k) - 50 k plus the time bonus, never below 0 |
| SoftwareSort.PerfectSort | src/components/games/SoftwareSortGame.tsx:105-133 | no mistakes exactly when every program sits in its right bin, and then the score is 1500 plus the time bonus |
| SoftwareSort.LastDropFinishes | src/components/games/SoftwareSortGame.tsx:70-103 | the drop that empties the pile ends the game and scores all fifteen programs |
| SoftwareSort.DropKeepsPlaying | src/components/games/SoftwareSortGame.tsx:70-103 | a drop that leaves programs in the pile does not end the game |
| SoftwareSort.BonusShrinks | src/components/games/SoftwareSortGame.tsx:122-124 | the time bonus never grows with the time taken |
| SoftwareSort.ResetDeals | src/components/games/SoftwareSortGame.tsx:49-60 | retrying after the results deals a fresh board |
| SoftwareSort.DropAsWritten | src/components/games/SoftwareSortGame.tsx:70-133 | as written, the drop plus its timed check still keeps every program exactly once |
| SoftwareSort.AsWrittenMissesLast | src/components/games/SoftwareSortGame.tsx:92-120 | as written, the finishing drop scores fourteen programs, not fifteen |
| SoftwareSort.PerfectSortAsWritten | src/components/games/SoftwareSortGame.tsx:92-133 | as written, a perfect sort scores 1400 plus the bonus; as intended, 1500 plus the bonus |
| SoftwareSort.AllRightTally | src/components/games/SoftwareSortGame.tsx:109-120 | bins holding only right placements count every program right and none as a mistake |
| SoftwareSort.LastDropSorted | src/components/games/SoftwareSortGame.tsx:70-120 | before the last right drop fourteen programs are right; after it all fifteen are, and the pile is empty |
| SoftwareSort.StrayFinish | src/components/games/SoftwareSortGame.tsx:99-103 | as written, moving a program between bins with one left in the pile ends the game with that program unsorted; as intended it does not end |
| PcRepair.Initial | src/components/games/PCRepairGame.tsx:26-35 | a game opens with 60 seconds, no score, no combo, no click, an empty grid, not started |
| PcRepair.FindPc | src/components/games/PCRepairGame.tsx:96-97 | `find` returns the first PC with the id, or nothing when there is none |
| PcRepair.Without | src/components/games/PCRepairGame.tsx:100 | filtering out an id keeps exactly the other PCs |
| PcRepair.WithoutAll | src/components/games/PCRepairGame.tsx:66-71 | expiry keeps exactly the PCs whose id is not expiring |
| PcRepair.FreeCells | src/components/games/PCRepairGame.tsx:46-64 | a spawn adds exactly the new PCs whose cell was free |
| PcRepair.Points | src/components/games/PCRepairGame.tsx:103-109 | a repair brings at least 12 points |
| PcRepair.Repair | src/components/games/PCRepairGame.tsx:95-112 | a repair of a broken PC on the grid removes it, adds one to the combo and click count, 10 plus twice the new combo to the score, and updates the best combo; otherwise nothing changes |
| PcRepair.TickDown | src/components/games/PCRepairGame.tsx:78-93 | a tick takes a second off, and the tick that would reach 0 ends the game |
| PcRepair.Step | src/components/games/PCRepairGame.tsx:26-117 | every event keeps the game valid; only a reset lowers the score or best combo; a miss during play or an expiry resets the combo without scoring |
| PcRepair.CellPc | src/components/games/PCRepairGame.tsx:288 | a grid cell draws the first PC at its position, or none when no PC is there |
| PcRepair.ShownIff | src/components/games/PCRepairGame.tsx:286-304 | a PC has a button exactly when it is broken, inside the nine cells, and no earlier PC sits in its cell |
| PcRepair.ClickRepairsIffShown | src/components/games/PCRepairGame.tsx:286-304 | during play on a grid of broken PCs, a click repairs a PC exactly when its button is drawn; a click on a hidden or absent PC changes nothing |
| PcRepair.HiddenBehindFirst | src/components/games/PCRepairGame.tsx:51-61 | two PCs of one spawn may share a cell; only the first is drawn, so the second cannot be clicked while the first is there |
| PcRepair.RepairableIff | src/components/games/PCRepairGame.tsx:95-98 | on a grid of broken PCs, a PC can be repaired exactly when it is on the grid |
| PcRepair.RepairKeepsOthers | src/components/games/PCRepairGame.tsx:95-112 | repairing one PC leaves the others on the grid |
| PcRepair.StreakScore | src/components/games/PCRepairGame.tsx:95-112 | n repairs in a row from combo c add 10 n + 2 n c + n (n + 1) points, n to the combo and n clicks |
| PcRepair.FirstRepairOfStreak | src/components/games/PCRepairGame.tsx:95-112 | the first repair of a streak scores 12 + 2c, adds one to the combo and the clicks, and leaves the rest of the streak repairable |
| PcRepair.StreakArithmetic | src/components/games/PCRepairGame.tsx:103-110 | one more repair extends the streak total by 12 + 2 c |
| PcRepair.GridStaysBroken | src/components/games/PCRepairGame.tsx:43-75 | spawning and expiring keep only broken PCs on the grid |
| PcRepair.ResetRestores | src/components/games/PCRepairGame.tsx:26-35 | a reset after a finished game restores the opening state |
| PcRepair.Ticks | src/components/games/PCRepairGame.tsx:78-93 | any number of ticks keeps the game valid |
| PcRepair.TicksToEnd | src/components/games/PCRepairGame.tsx:78-93 | after n ticks the clock shows n seconds less; play goes on exactly while time is left, and the game is finished when it runs out |
| EasterEggs.NextProgress | src/components/AsterixEasterEggs.tsx:59-76 | a matching key moves the code one step on; any other key resets it to 0; progress stays within the code |
| EasterEggs.WithProgress | src/components/AsterixEasterEggs.tsx:86 | a change of progress re-registers the listeners, which restarts the click counter |
| EasterEggs.OnKey | src/components/AsterixEasterEggs.tsx:59-76 | Obelix appears exactly on the code's tenth key |
| EasterEggs.OnClick | src/components/AsterixEasterEggs.tsx:26-56 | clicks count up to the fifth, which bursts the stars and resets the counter; the first click arms the reset timer |
| EasterEggs.Step | src/components/AsterixEasterEggs.tsx:26-86 | every event keeps the progress within the code and the counter below five |
| EasterEggs.StarCount | src/components/AsterixEasterEggs.tsx:37 | stars come in bursts of eight |
| EasterEggs.FeedBounded | src/components/AsterixEasterEggs.tsx:59-76 | the progress never leaves 0 to 10 |
| EasterEggs.FeedAppend | src/components/AsterixEasterEggs.tsx:59-76 | keys pressed in two runs give the same progress as in one |
| EasterEggs.FeedSound | src/components/AsterixEasterEggs.tsx:59-76 | a progress of k means the last k keys are exactly the code's first k |
| EasterEggs.FeedCode | src/components/AsterixEasterEggs.tsx:13-17 | the ten keys of the code, in order, complete it |
| EasterEggs.FeedStaysAtZero | src/components/AsterixEasterEggs.tsx:59-76 | keys that are never the first key of the code leave the progress at 0 |
| EasterEggs.NoFallback | src/components/AsterixEasterEggs.tsx:59-76 | a third ArrowUp resets to 0, and the rest of the code never matches after it |
| EasterEggs.CodeTailAvoidsFirst | src/components/AsterixEasterEggs.tsx:13-17 | past its first two keys the code never repeats ArrowUp |
| EasterEggs.ObelixIff | src/components/AsterixEasterEggs.tsx:59-76 | Obelix appears exactly on KeyA after nine matching keys |
| EasterEggs.FiveClickBurst | src/components/AsterixEasterEggs.tsx:26-56 | five clicks from rest give one burst of eight stars and leave the counter at 0 |
| EasterEggs.SlowClicksReset | src/components/AsterixEasterEggs.tsx:26-56 | four clicks and then the timeout show nothing and reset the counter |
| EasterEggs.KeyRestartsClicks | src/components/AsterixEasterEggs.tsx:86 | a key that changes the code progress restarts the click counter |

## Left out

- Randomness is not modelled. It covers the shuffle of the sort game, the 50/50 draw and the audience's votes in the quiz, and the number and position of spawned PCs in the repair game. Each arrives as an event parameter.
- PcRepair.Step accepts any list of spawned PCs. The page spawns 1 to 3 broken PCs per second, in cells 0 to 8, with ids taken from the clock. The model takes the list as given. A PC it places outside the nine cells is never drawn, so it can never be clicked, as on the page. A click counts only on a PC whose button the grid draws (`Shown`).
- The quiz keeps its used jokers as a set. The page keeps an array, but it only ever asks whether a joker is in it, and the guards stop a joker from being added twice.
- The audience's votes are stored as given. The normalisation of the random percentages is not modelled.
- The RPG's story delays run as part of the step that schedules them. The repair game's one-second timer, spawn timer and expiry, and the easter eggs' three timeouts, are events of their own. Interleavings other than the four stale reads under "Findings" (three in the RPG, one in the sort game) are not modelled.
- Offers in the RPG are closures built when the story text is scheduled, and can hold an older record than the page's. The model runs them on the current record. This covers `acceptMission` reading no record when the first game starts, and the "Succès" menu button loading a save whose pending story timers can later switch screens.
- The RPG's stats screen, the inventory display and the combat log's French text are not modelled. The log is kept as tagged entries.
- The RPG's new game shares the data file's companion and achievement objects, which the handlers mutate in place, so a second game in the same session can start with them already set. The model starts every new game from the pristine tables.
- localStorage (save, load, `hasSave`), JSON and URL encoding of the answers, and page navigation are outside the model. A load delivers the saved record as an event parameter; navigation is an outcome of the step.
- QuestCombat.TechnicianBoost: the model reads `Math.floor(d * 1.15)` as exact 115 d / 100. In IEEE doubles 100 * 1.15 is 114.99999999999999, so the page gives 114 where the model gives 115.
- Calculations.PilotCount reads `Math.ceil(n * 0.1)` as the integer `(n + 9) / 10`, the ceiling of n / 10. For school-sized fleets the double product n * 0.1 lies on the same side of every integer as n / 10, so the page and the model agree; floating point itself is not modelled.
- The repair game's accuracy figure is a float ratio and is not modelled; its time and combo figures are.
- The sort game's display of the time taken is not modelled; the time bonus it feeds is.
- The results page's radar, the ecological visualisation, the PDF export, speech and sound are presentation and are not modelled.

## Findings

| source | as written | input that shows it | evidently intended | confidence | as-written member | corrected member |
|---|---|---|---|---|---|---|
| src/app/jeux/nird-quest/page.tsx:160-211 | the patch's delayed enemy attack computes HP from the record as it was before the patch, so the heal is overwritten | 50 of 100 HP against the first virus (attack 8, player defence 5): 47 HP after the round | heal 30 HP, then take the hit: 77 HP | not executed | QuestCombat.HealAsWritten | QuestCombat.Heal |
| src/app/jeux/nird-quest/page.tsx:137-157 | the firewall's delayed enemy attack reads the defence from before the +5 | any enemy attack above the player's defence plus 5: the full hit lands | the hit is 5 lower during the firewall round | not executed | QuestCombat.DefendAsWritten | QuestCombat.Defend |
| src/app/jeux/nird-quest/page.tsx:119-128 | the delayed victory handler starts from the record before the special attack's time cost and overwrites it | a new game's special attack on a 1-HP virus: time stays at 100 | the special attack costs 10 time: 90 | not executed | QuestCombat.StrikeAsWritten | QuestCombat.Strike |
| src/app/jeux/nird-quest/page.tsx:613-644 | loading a chapter-3 save runs `startChapter3`, which sets the story text and the principal's choices but never switches the screen; the page stays on the menu, which renders no choices | a save with `currentChapter` 3, loaded from the menu: the menu stays, and the game cannot go on from it | the story screen with the principal's question | not executed | QuestStory.ChapterThreeResumeAsWritten | QuestStory.StartChapter |
| src/app/jeux/nird-quest/page.tsx:535-562 | the victory screen's button in chapter 2 runs `continueChapter2`, which sets Luna's text and choices but never switches the screen; the victory screen stays, and pressing the button again does the same | winning the fight of chapter 2 against the system bug, then pressing "Continuer": the victory screen stays, so chapter 3 is never reached in play | the story screen with Luna's offer | not executed | QuestStory.ChapterTwoVictoryAsWritten | QuestStory.AfterVictory |
| src/components/games/SoftwareSortGame.tsx:92-120 | the completion test queued by a drop inspects and scores the lists as they were before the drop, so the last program dropped is not scored | a perfect sort: 1400 plus the time bonus | all fifteen programs scored: 1500 plus the time bonus | not executed | SoftwareSort.DropAsWritten | SoftwareSort.Step |
