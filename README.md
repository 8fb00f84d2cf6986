# SKU generator for electrical and mechanical BOMs — a Dafny model

The system turns the rows of a bill of materials (an electrical sheet and a
mechanical sheet) into SKUs of the form
`DOMAIN-ROUTE-ROUTING-TYPE-SEQ`, for example `ELEC-ELEC-STD-RESIST-AAAA`.
It keeps a database of the components it has already seen and one counter
per (domain, route, routing, type) key. It can decode a SKU back into named
parts, compare a new BOM against the database, and prepare and check an
export to ODOO.

The model covers five parts of the code:

- **The SKU engine** (`sku_generator.py`). Each part has its own module:
  - the sequence codec (`SequenceCodec`);
  - the lookup tables (`Mappings`, `TableFacts`);
  - route and routing classification (`Classifier`);
  - the type token (`TypeToken`);
  - the optimizer (`Optimizer`);
  - component validation and the fingerprint (`Components`);
  - the database and `generate_sku` as pure functions over a `Store` value (`SkuEngine`);
  - the `SKUGenerator` object itself, as the class `Generator.SkuGenerator`. Its methods change the two fields `records` and `counters`, and each is proved equal to a store function: `GetExistingSku` to `ExistingSku`, `GetNextSequence` to `NextSequence`, `SaveComponent` to `Save`, `ComputeKey` to `KeyFor`, `IssueSku` to `Issue`, `GenerateSku` to `Generate`, and `SearchComponentBySku` to `FindSku` of the upper-cased query.
- **The decoder** `decode_sku_parts` (`Decoder`).
- **The batch loops** of `BOMProcessor` (`BomProcessor`). The class holds the generator and is proved against the pure fold `Process`.
- **The new-versus-existing analysis** of `BOMComparator` (`BomAnalyzer`). It reads the database and does not change it.
- **The ODOO side**:
  - the export row mapping and domain normalisation (`OdooExport`);
  - the import validator `validate_odoo_data` (`OdooIntegration`), over a small model of pandas cells (`Cells`).

Some Python behaviour is modelled explicitly:

- Python's string primitives are modelled exactly for Latin-1 (`PyStr`): `upper`, `lower`, `strip`, `split`, `isalnum`, `isspace`, `in`, slicing and `ljust`.
- The NFD accent stripping of `normalize_text` is modelled as a fold onto base letters.
- dict iteration order is insertion order, so every table is an ordered sequence of pairs.
- The md5 fingerprint is a parameter `digest: string -> string`. It is applied to the exact f-string `create_component_hash` builds.

The main results proved:

- **Sequence codes.**
  - Codes are four characters from the 29-character alphabet.
  - 0 gives `2222` and 1 gives `AAAA`.
  - Codes are injective on 1..29^4 and wrap with period 29^4.
  - A ghost decoder inverts them.
- **The generator keeps the database invariant.** The invariant: SKUs are unique, fingerprints are unique, and every stored SKU was issued from a counter value already handed out under a dash-free key.
- **Every SKU returned has exactly five dash-separated fields.** Once a SKU is returned, asking again for the same component returns the same SKU and changes nothing. The SKU is then, by its exact text, the SKU of a stored row, and it decodes. (`search_component_by_sku` looks up the upper-cased query; the model does not prove that a generated SKU is already upper case.)
- **Counters never go down.** Rows are only ever appended.
- **Batch results account for every row.** Results plus skipped equals the row count, and the database invariant is kept. The results keep input order: they are exactly the rows whose `generate_sku` call succeeded, each with the SKU that call returned.
- **Each sheet analysis counts every row once.** `existant` is the number of rows whose fingerprint has a stored SKU and `nouveau` the number of the others. The existing entries are exactly the rows found, in input order, each with its stored SKU; the new entries are exactly the rows missed, in input order.
- **The ODOO validator's list is empty exactly when every check passes.** Its errors come in a fixed order. A frame built from the database's own SKUs draws no duplicate and no format error.

## Model

| member | source | states |
|---|---|---|
| SequenceCodec.Digits | sku_generator.py:311-316 | the loop producing `k` digits yields exactly `k` characters |
| SequenceCodec.FormatSequence | sku_generator.py:297-318 | the loop in `format_sequence` returns `SequenceCode(sequence)`: "2222" for 0, otherwise four base-29 digits of `sequence - 1` |
| SequenceCodec.DigitsInAlphabet | sku_generator.py:314-315 | every digit written is a character of the alphabet |
| SequenceCodec.SequenceCodeShape | sku_generator.py:297-318 | every code is exactly 4 characters, all from the alphabet |
| SequenceCodec.SequenceCodeFirstValues | sku_generator.py:303-316 | 0 gives "2222" and 1 gives "AAAA" |
| SequenceCodec.AlphabetNoDuplicates | sku_generator.py:43 | the 29 alphabet characters are pairwise distinct |
| SequenceCodec.IndexInDistinct | sku_generator.py:43 | in a duplicate-free alphabet, a character's index is its position |
| SequenceCodec.DigitsValue | sku_generator.py:311-316 | reading the k digits back as a base-29 numeral gives the number written, for numbers below 29^k |
| SequenceCodec.SequenceRoundTrip | sku_generator.py:297-318 | the ghost decoder inverts the code on 1..29^4 |
| SequenceCodec.DigitsDecode | sku_generator.py:307-316 | decoding the digits of t gives t + 1 |
| SequenceCodec.SequenceCodeInjective | sku_generator.py:297-318 | distinct sequences in 1..29^4 get distinct codes |
| SequenceCodec.DivModShift | sku_generator.py:315-316 | adding a multiple of 29 leaves the low digit alone and shifts the quotient |
| SequenceCodec.DigitsPeriodic | sku_generator.py:311-316 | the k digits of t and of t + 29^k are the same: higher digits are dropped |
| SequenceCodec.SequenceCodeWraps | sku_generator.py:297-318 | n and n + 29^4 get the same code, so codes wrap |
| TableFacts.GeneratorTables | sku_generator.py:46-134 | the generator's three tables are the route, routing and type mappings in declaration order |
| TableFacts.GeneratorCodesDashFree | sku_generator.py:46-134 | no code in any of the three tables contains a dash |
| TableFacts.RouteCodesDashFree | sku_generator.py:46-64 | no route code contains a dash |
| TableFacts.RoutingCodesDashFree | sku_generator.py:66-83 | no routing code contains a dash |
| TableFacts.TypeCodesDashFree | sku_generator.py:87-134 | no type code contains a dash |
| TableFacts.RouteKeys | sku_generator.py:48-57 | "Assemblage" upper-cased is a prefix of "ASSEMBLAGE SOUDÉ" upper-cased |
| TableFacts.RoutingKeys | sku_generator.py:68-78 | "Assemblage" upper-cased is a prefix of "ASSEMBLAGE MÉCANIQUE" upper-cased |
| TableFacts.WeldCodeUnique | sku_generator.py:46-64 | WELD is the code of just one route entry |
| TableFacts.MechCodeUnique | sku_generator.py:66-83 | MECH is the code of just one routing entry |
| Classifier.FirstMatchStep | sku_generator.py:230-232 | an entry whose label does not match can be skipped |
| Classifier.GetRouteCode | sku_generator.py:228-235 | the loop returns `RouteCodeOf`: the first matching route code, else the domain default |
| Classifier.GetRoutingCode | sku_generator.py:237-243 | the loop returns `RoutingCodeOf`: the first matching routing code, else "STD" |
| Classifier.FirstMatchAt | sku_generator.py:230-232 | when entry k is the first whose upper-cased label is in the upper-cased type, its code is the result |
| Classifier.FirstMatchNone | sku_generator.py:230-232 | there is no match exactly when no label matches |
| Classifier.FirstMatchSome | sku_generator.py:230-232 | a match is the code of some matching entry with no matching entry before it |
| Classifier.RouteCodeAt | sku_generator.py:228-232 | the route code is the code of the first matching route entry |
| Classifier.RouteCodeDefault | sku_generator.py:234-235 | with no match the route is "ELEC" for domain ELEC and "MECA" for any other domain |
| Classifier.RoutingCodeAt | sku_generator.py:237-241 | the routing code is the code of the first matching routing entry |
| Classifier.RoutingCodeDefault | sku_generator.py:243 | with no match the routing is "STD" |
| Classifier.ShadowedEntry | sku_generator.py:230-232 | an entry whose label contains an earlier label and whose code is unique can never be the result |
| Classifier.WeldShadowed | sku_generator.py:48-57 | "ASSEMBLAGE SOUDÉ" is shadowed by "Assemblage" |
| Classifier.MechShadowed | sku_generator.py:68-78 | "ASSEMBLAGE MÉCANIQUE" is shadowed by "Assemblage" in the routing table |
| Classifier.WeldRouteUnreachable | sku_generator.py:228-235 | no component type ever gets route WELD |
| Classifier.MechRoutingUnreachable | sku_generator.py:237-243 | no component type ever gets routing MECH |
| Classifier.RouteCodeAvoids | sku_generator.py:228-235 | a character absent from every route code and from the defaults is absent from the route |
| Classifier.RoutingCodeAvoids | sku_generator.py:237-243 | a character absent from every routing code and from "STD" is absent from the routing |
| TypeToken.TypeMatchStep | sku_generator.py:183-186 | a type entry that does not apply can be skipped |
| TypeToken.NormalizeText | sku_generator.py:174-226 | `normalize_text` and its early returns compute `NormalizedText` |
| TypeToken.NormalizedLength | sku_generator.py:174-226 | the token never exceeds `max_length` characters |
| TypeToken.NormalizedEmpty | sku_generator.py:178-179 | empty text gives "UNKN" cut to `max_length` |
| TypeToken.NormalizedFromTable | sku_generator.py:182-186 | when entry k is the first type label applying both ways round, its code cut to `max_length` is the token |
| TypeToken.TypeMatchAt | sku_generator.py:183-186 | the first applying entry's code is the table match |
| TypeToken.UpperAlnumNoSpace | sku_generator.py:193 | keeping alphanumerics leaves no whitespace |
| TypeToken.ReplaceCharKeepsNoSpace | sku_generator.py:202-203 | a replacement by a non-space keeps the text free of whitespace |
| TypeToken.ReplaceCharElems | sku_generator.py:202-203 | `str.replace` of one character changes exactly the characters equal to it |
| TypeToken.CleanTextChars | sku_generator.py:188-203 | the cleaned text has no whitespace and none of the digits 0, 1, 9 |
| TypeToken.SplitLength | sku_generator.py:218-224 | consonants and vowels together are as long as the text |
| TypeToken.ConsonantsFrom | sku_generator.py:218-224 | consonants and vowels are characters of the text |
| TypeToken.PrefixConcat | sku_generator.py:220-226 | cutting `a + b` to at most `len(a)` characters is cutting `a` |
| TypeToken.NormalizedFallbackLong | sku_generator.py:205-226 | past the table with a long cleaned text, the token is consonants-then-vowels cut to `max_length` and is exactly `max_length` long: the initials branch and the 'X' padding never apply |
| TypeToken.NormalizedFallbackDigits | sku_generator.py:188-226 | past the table, the token has no 0, 1 or 9, and a short cleaned text is the token itself |
| TypeToken.UpperAlnumNoDash | sku_generator.py:193 | keeping alphanumerics drops every dash |
| TypeToken.ReplaceCharAvoids | sku_generator.py:202-203 | replacing a character keeps out a character that was absent |
| TypeToken.CleanTextNoDash | sku_generator.py:188-203 | the cleaned text has no dash |
| TypeToken.TypeMatchFrom | sku_generator.py:183-186 | a table match is the code of some table entry |
| TypeToken.NormalizedNoDash | sku_generator.py:174-226 | with dash-free type codes, the token has no dash |
| Optimizer.OptimizeSkuFormat | sku_generator.py:320-356 | the type code is returned unchanged, and each returned route/routing is one of the two inputs or "STD" |
| Optimizer.OptimizeOutcome | sku_generator.py:326-356 | when some rule applies, the route or the routing becomes "STD"; otherwise the codes come back unchanged |
| Optimizer.OptimizeEqualCodes | sku_generator.py:326-330 | equal codes give ("STD", routing, type) |
| Optimizer.OptimizeAssAsm | sku_generator.py:340-353 | (ASS, ASM) becomes (ASS, STD) when the type neither contains nor is contained in either code |
| Optimizer.MechPairsUnreachable | sku_generator.py:343-344 | MECH is never the route unless an input was MECH: the BOLT and BEND pairs never fire |
| Optimizer.OptimizeNotIdempotent | sku_generator.py:320-356 | optimizing ("BOLT", "BOLT", "BOLTXX") twice differs from optimizing it once |
| Components.Validate | sku_generator.py:358-397 | acceptance holds exactly for a meaningful name, a domain ELEC or MECA, and a meaningful type; a blank description becomes "Description non fournie" once the name checks pass, even if the component is then rejected |
| Components.DefaultDescriptionNotBlank | sku_generator.py:375-379 | the default description is not blank |
| Components.ValidateIdempotent | sku_generator.py:358-397 | validating the updated component again changes nothing and gives the same verdict |
| Components.AcceptedHasDescription | sku_generator.py:375-379 | an accepted component has a non-blank description |
| Components.FilledEvenWhenRejected | sku_generator.py:375-384 | a component rejected for its domain still has its blank description replaced |
| Components.ValidateKeepsOtherFields | sku_generator.py:358-397 | validation changes no field other than the description |
| Components.FingerprintFields | sku_generator.py:245-248 | the fingerprint depends only on name, description, type, manufacturer and manufacturer part |
| Components.HashString | sku_generator.py:245-248 | the text hashed is the f-string of name, description, type, manufacturer and manufacturer part joined by "_", with `None` rendered as "None" |
| Components.Fingerprint | sku_generator.py:245-248 | the fingerprint is the digest of that text; `FingerprintFields` states what it depends on |
| Components.PlaceholderNameRejected | sku_generator.py:368-372 | a name " NaN " is rejected as a placeholder after lower/strip, with the component unchanged |
| SkuEngine.ExistingSku | sku_generator.py:250-264 | none exactly when no row has the fingerprint; otherwise the SKU of a row with that fingerprint |
| SkuEngine.FindSku | sku_generator.py:459-487 | none exactly when no row has the SKU; otherwise a row with that SKU |
| SkuEngine.NextSequence | sku_generator.py:266-295 | the counter of the key goes from absent to 1, or up by one, and no other counter changes |
| SkuEngine.Save | sku_generator.py:438-457 | the insert fails exactly when the SKU or the fingerprint is already stored; otherwise it appends one row |
| SkuEngine.RecordOf | sku_generator.py:438-457 | the inserted row holds the SKU, the fingerprint and the component's name, description, domain, type, route, routing, manufacturer and manufacturer part |
| SkuEngine.KeyFor | sku_generator.py:413-421 | the counter key is the domain with the optimized route, routing and six-character type codes; `KeyForDashFree` proves it dash-free |
| SkuEngine.SkuOf | sku_generator.py:429-430 | the SKU of a key and counter: its five fields joined by "-"; `SkuText` proves it is the source's f-string |
| SkuEngine.Issue | sku_generator.py:407-436 | the step after validation: a stored non-empty SKU is returned, otherwise the counter advances and the new SKU is inserted or refused; pinned down by `IssueHit` and `IssueMiss` |
| SkuEngine.Inv | sku_generator.py:144-153 | the UNIQUE `sku` and `component_hash` columns, plus every stored SKU issued under a dash-free key at a counter value already handed out; kept by `IssuePreservesInv` and `GeneratePreservesInv` |
| SkuEngine.Generate | sku_generator.py:399-436 | the component returned is the one validation left |
| SkuEngine.SkuText | sku_generator.py:429-430 | the SKU is the f-string `domain-route-routing-type-sequence_code` |
| SkuEngine.SequenceCodeNoDash | sku_generator.py:297-318 | a sequence code has no dash |
| SkuEngine.SkuSplits | sku_generator.py:429-430 | a SKU of a dash-free key splits on '-' into its five fields |
| SkuEngine.SkuInjective | sku_generator.py:429-430 | different keys, or different sequences in 1..29^4, give different SKUs |
| SkuEngine.KeyForDashFree | sku_generator.py:413-421 | with dash-free tables and a valid domain, the counter key is dash-free and carries the domain |
| SkuEngine.EmptyStoreInv | sku_generator.py:136-172 | an empty database meets the invariant |
| SkuEngine.IssuedGrows | sku_generator.py:266-295 | a SKU accounted for stays accounted for when counters grow |
| SkuEngine.NextSequenceGrows | sku_generator.py:266-295 | no counter is lost or decreased by taking the next sequence |
| SkuEngine.IssueHit | sku_generator.py:408-411 | a stored non-empty SKU is returned and the database is unchanged |
| SkuEngine.IssueMiss | sku_generator.py:413-436 | on a miss only the key's counter moves; the SKU from the new counter is appended, or, when it or the fingerprint is taken, the insert fails and the rows are unchanged |
| SkuEngine.IssueCountersGrow | sku_generator.py:423-424 | no counter is lost or decreased |
| SkuEngine.IssueAppendsOnly | sku_generator.py:432-433 | rows are only ever appended |
| SkuEngine.SkuOfNotEmpty | sku_generator.py:429-430 | a SKU is never empty |
| SkuEngine.IssuedSplits | sku_generator.py:429-430 | a SKU accounted for has five fields |
| SkuEngine.IssueSkuShape | sku_generator.py:408-436 | under the invariant, the SKU returned has five fields, whether stored or new |
| SkuEngine.InvHitTruthy | sku_generator.py:250-264 | under the invariant, a stored SKU is never empty, so a hit is always returned (see also sku_generator.py:409) |
| SkuEngine.NextSkuNotIssued | sku_generator.py:423-430 | below 29^4, the next SKU of a key has not been issued before |
| SkuEngine.NextSkuFree | sku_generator.py:423-433 | on a miss below 29^4, neither the next SKU nor the fingerprint is taken |
| SkuEngine.IssueNoConflict | sku_generator.py:408-436 | under the invariant and below 29^4, issuing never fails on the UNIQUE constraints |
| SkuEngine.IssuePreservesInv | sku_generator.py:408-436 | issuing keeps UNIQUE sku, UNIQUE fingerprint and every SKU accounted for |
| SkuEngine.ExistingAfterAppend | sku_generator.py:250-264 | after appending a row with a new fingerprint, that fingerprint looks up its SKU (see also sku_generator.py:438-457) |
| SkuEngine.IssueRepeat | sku_generator.py:408-436 | issuing again after a successful issue returns the same SKU and changes nothing |
| SkuEngine.IssueFindable | sku_generator.py:408-436 | a SKU handed out is the SKU of a row afterwards (see also sku_generator.py:459-487) |
| SkuEngine.GenerateInvalid | sku_generator.py:403-405 | an invalid component raises and leaves records and counters unchanged |
| SkuEngine.GenerateHit | sku_generator.py:407-411 | on a fingerprint hit the stored SKU is returned and nothing changes |
| SkuEngine.GenerateMiss | sku_generator.py:413-436 | on a miss only the counter of (domain, route', routing', type') moves, and the new SKU is stored under it or the insert fails |
| SkuEngine.GenerateValid | sku_generator.py:399-436 | for a valid component, generation is issuing under the validated component's fingerprint and key |
| SkuEngine.GenerateMonotonic | sku_generator.py:399-436 | counters never go down or disappear and rows are only appended |
| SkuEngine.GeneratedSkuShape | sku_generator.py:399-436 | every SKU returned has exactly five dash-separated fields |
| SkuEngine.GenerateNoConflict | sku_generator.py:399-436 | a valid component below 29^4 on its key always gets a SKU |
| SkuEngine.GeneratePreservesInv | sku_generator.py:399-436 | `generate_sku` keeps the database invariant |
| SkuEngine.GenerateRepeat | sku_generator.py:399-436 | a repeat call with the same component, or with the validated one, returns the same SKU and changes nothing |
| SkuEngine.GenerateFindable | sku_generator.py:399-436 | a SKU returned is found by SKU in the database left behind (see also sku_generator.py:459-487) |
| Generator.SkuGenerator.constructor | sku_generator.py:37-134 | the generator starts on an empty database with its three tables, and meets the invariant |
| Generator.SkuGenerator.GetExistingSku | sku_generator.py:250-264 | the loop returns `ExistingSku` of the component's fingerprint |
| Generator.SkuGenerator.GetNextSequence | sku_generator.py:266-295 | the counters become `NextSequence` of the old counters; rows are unchanged |
| Generator.SkuGenerator.SaveComponent | sku_generator.py:438-457 | the rows become `Save` of the old rows, or stay when the insert fails; counters are unchanged |
| Generator.SkuGenerator.ComputeKey | sku_generator.py:413-421 | the codes and the optimizer give `KeyFor` |
| Generator.SkuGenerator.IssueSku | sku_generator.py:407-436 | outcome and new database are `Issue` of the old database |
| Generator.SkuGenerator.GenerateSku | sku_generator.py:399-436 | outcome, updated component and new database are `Generate` of the old database; the invariant is kept |
| Generator.SkuGenerator.SearchComponentBySku | sku_generator.py:459-487 | the loop returns the row whose SKU is the upper-cased query |
| Decoder.InvertMeaning | sku_generator.py:589-601 | the inverted table holds exactly the codes, each named by the last label carrying it |
| Decoder.NameOfMeaning | sku_generator.py:603-613 | an unknown code names itself; otherwise the last label carrying it is its name |
| Decoder.Invert | sku_generator.py:589-601 | the code-to-name dict built from a table, later labels overwriting earlier ones; `InvertMeaning` states its contents |
| Decoder.NameOf | sku_generator.py:603-613 | `meaning.get(code, code)`; `NameOfMeaning` states its value |
| Decoder.DecodeSkuParts | sku_generator.py:574-613 | a result exactly when the SKU has five fields; the codes are the fields verbatim and the names come from the inverted tables |
| Decoder.DecodeSkuOf | sku_generator.py:574-613 | decoding the SKU of a dash-free key gives back its codes and sequence code |
| Decoder.DecodeGenerated | sku_generator.py:399-436 | every SKU `generate_sku` returns decodes (see also sku_generator.py:574-613) |
| Decoder.ThreeFieldsRejected | sku_generator.py:576-578 | a three-field SKU decodes to `{}` |
| Decoder.AssRouteName | sku_generator.py:48 | ASS is named "ASSEMBLAGE MÉCANIQUE", the later of its two labels (see also sku_generator.py:57, sku_generator.py:589-592) |
| BomProcessor.ElecComponents | main.py:28-38 | electrical rows become components with domain ELEC and empty route and routing |
| BomProcessor.MecaComponents | main.py:243-253 | mechanical rows become components with domain MECA, the part number as both name and manufacturer part, no designator |
| BomProcessor.Process | main.py:26-62 | every row gives one result or one skip: results plus skipped equals rows |
| BomProcessor.ProcessStep | main.py:26-62 | one more row extends the results by its line or the skipped count by one |
| BomProcessor.GenerateCall | sku_generator.py:399-436 | the per-row call is `generate_sku` on the given database |
| BomProcessor.Run | main.py:41-62 | for any per-row call, results plus skipped equals rows |
| BomProcessor.KeptLength | main.py:41-53 | one listed position per result line |
| BomProcessor.KeptIncreasing | main.py:26-62 | the listed positions are in range and strictly increasing, so results keep input order |
| BomProcessor.KeptLines | main.py:41-53 | result k is the SKU and updated component of the call on the k-th listed position, made on the database the earlier rows left |
| BomProcessor.KeptComplete | main.py:55-62 | every position not listed is a row whose call raised |
| BomProcessor.RunTrace | main.py:26-62 | the four facts together: the results are exactly the successful calls, in input order |
| BomProcessor.Selected | main.py:140-150 | the dict items in order: ELEC items set "Électrique" and MECA items set "Mécanique" to the lines of `Process`, other keys are passed over; `SelectedKeys` states the keys |
| BomProcessor.ExtractAsWritten | main.py:89-98 | as written, the missing `validate_component` raises on every row, so nothing is kept; `ExtractAsWrittenEmpty` states it |
| BomProcessor.SelectedStep | main.py:144-148 | one more group adds its domain's results or nothing |
| BomProcessor.Extract | main.py:74-98 | every row is either kept or counted as skipped |
| BomProcessor.ProcessLines | main.py:41-62 | the lines keep input order: line k belongs to the k-th component (position `Kept[k]`, strictly increasing) whose `generate_sku` call succeeded, carrying the SKU that call returned on the database left by the components before it, that component as validation left it and the sheet's label; every component not listed raised (see also main.py:152-201) |
| BomProcessor.SelectedKeys | main.py:140-150 | the result keys are "Électrique" and "Mécanique" only, each present exactly when its domain appears in the input |
| BomProcessor.ProcessPreservesInv | main.py:26-62 | a batch keeps the database invariant |
| BomProcessor.FindSkuAppended | sku_generator.py:432-433 | a stored SKU stays findable when rows are appended (see also sku_generator.py:459-487) |
| BomProcessor.ProcessLinesStored | main.py:41-53 | every result's SKU is in the database after the batch |
| BomProcessor.ProcessAllInvalid | main.py:55-58 | a batch of invalid rows only skips and leaves the database alone |
| BomProcessor.ElectricalLines | main.py:28-53 | every electrical result has domain ELEC and label "ÉLECTRIQUE" |
| BomProcessor.MechanicalLines | main.py:243-266 | every mechanical result has domain MECA, the part number as manufacturer part, no designator and label "MÉCANIQUE" |
| BomProcessor.ExtractValidated | main.py:89-93 | every component kept passes validation unchanged |
| BomProcessor.ExtractAsWrittenEmpty | main.py:89-98 | as written, every row is skipped and the list is empty (see also main.py:124-133) |
| BomProcessor.ExtractDropsValid | main.py:89-98 | a valid component is kept by the corrected extraction and dropped as written |
| BomProcessor.BomProcessor.constructor | main.py:18-19 | the processor holds the generator it is given |
| BomProcessor.BomProcessor.GenerateLines | main.py:26-62 | the loop computes `Process` and keeps the database invariant |
| BomProcessor.BomProcessor.ProcessElectricalBom | main.py:21-67 | results, skipped count and new database are `Process` of the electrical components |
| BomProcessor.BomProcessor.ProcessMechanicalBom | main.py:236-280 | results, skipped count and new database are `Process` of the mechanical components |
| BomProcessor.BomProcessor.ProcessSelectedElectrical | main.py:152-176 | the results are those of `Process` with label "ÉLECTRIQUE"; failures are dropped |
| BomProcessor.BomProcessor.ProcessSelectedMechanical | main.py:178-201 | the results are those of `Process` with label "MÉCANIQUE"; failures are dropped |
| BomProcessor.BomProcessor.GenerateSkusForSelected | main.py:140-150 | the result map and new database are `Selected` of the groups |
| BomProcessor.BomProcessor.ExtractElectricalComponents | main.py:69-103 | the components kept are those the corrected `Extract` keeps |
| BomProcessor.BomProcessor.ExtractMechanicalComponents | main.py:105-138 | the components kept are those the corrected `Extract` keeps |
| BomProcessor.BomProcessor.ExtractValid | main.py:74-98 | the loop computes `Extract` |
| BomAnalyzer.ElecProbes | bom_analyzer.py:57-66 | each electrical row becomes a probe with the sheet's domain and no quantity or designator |
| BomAnalyzer.MecaProbes | bom_analyzer.py:100-109 | each mechanical row becomes a probe with the part number as both name and manufacturer part |
| BomAnalyzer.Analyze | bom_analyzer.py:56-90 | nouveau + existant equals the rows, and each list is as long as its count |
| BomAnalyzer.Known | bom_analyzer.py:70 | `if existing_sku:` holds for a stored, non-empty SKU (the same test at bom_analyzer.py:113) |
| BomAnalyzer.Found | bom_analyzer.py:68-70 | a row counts as existing when the lookup of its fingerprint gives a stored, non-empty SKU |
| BomAnalyzer.FoundAt | bom_analyzer.py:70-76 | the positions, in order, of the rows counted as existing |
| BomAnalyzer.MissedAt | bom_analyzer.py:77-83 | the positions, in order, of the rows counted as new |
| BomAnalyzer.FoundSet | bom_analyzer.py:70-76 | the set of positions of the rows counted as existing |
| BomAnalyzer.MissedSet | bom_analyzer.py:77-83 | the set of positions of the rows counted as new |
| BomAnalyzer.AnalyzeStep | bom_analyzer.py:68-83 | one more row adds one to `existant` when it is found and one to `nouveau` otherwise |
| BomAnalyzer.PositionSetsStep | bom_analyzer.py:68-83 | one more row adds its position to the found or to the missed positions |
| BomAnalyzer.AnalyzeCounts | bom_analyzer.py:68-90 | `existant` is the number of rows whose lookup finds a SKU, `nouveau` the number of rows whose lookup does not |
| BomAnalyzer.AnalyzeIndexLength | bom_analyzer.py:70-83 | one existing entry per found position and one new entry per missed position |
| BomAnalyzer.AnalyzeIndexIncreasing | bom_analyzer.py:56-83 | both position lists are in range and strictly increasing, so the entries keep input order |
| BomAnalyzer.AnalyzeIndexComplete | bom_analyzer.py:68-83 | a position is listed as found exactly when its row's lookup finds a SKU, and as missed exactly when it does not |
| BomAnalyzer.AnalyzeIndexEntries | bom_analyzer.py:70-83 | existing entry k is the k-th found row with its stored SKU; new entry k is the k-th missed row with its name, type and description |
| BomAnalyzer.AnalyzeTrace | bom_analyzer.py:56-90 | the four facts together: the existing entries are exactly the found rows and the new entries exactly the missed rows, each in input order, and the counts are their numbers |
| BomAnalyzer.AnalyzeBom | bom_analyzer.py:27-47 | a sheet's details are present exactly when the sheet is; the totals are the sums of the sheet counts, a missing sheet giving 0 |
| BomAnalyzer.Tally | bom_analyzer.py:145-154 | the groups are exactly the values that occur; `TallyCount` gives each group's count |
| BomAnalyzer.MapSumRemove | bom_analyzer.py:145-154 | a count total splits into one key's count and the rest |
| BomAnalyzer.TallySum | bom_analyzer.py:145-154 | the group counts add up to the number of rows |
| BomAnalyzer.TallyCount | bom_analyzer.py:145-154 | each value's COUNT(*) is the number of rows holding it |
| BomAnalyzer.DomainColumn | bom_analyzer.py:145 | the domain column is read row by row |
| BomAnalyzer.RouteColumn | bom_analyzer.py:149 | the route column is read row by row |
| BomAnalyzer.RoutingColumn | bom_analyzer.py:153 | the routing column is read row by row |
| BomAnalyzer.AnalyzeNewEntries | bom_analyzer.py:77-83 | every new entry comes from a row with no stored SKU, with its name, type and description |
| BomAnalyzer.AnalyzeExistingEntries | bom_analyzer.py:68-76 | every existing entry comes from a row with a stored SKU and carries that SKU |
| BomAnalyzer.BomTotals | bom_analyzer.py:27-47 | the two totals add up to the rows of both sheets (`AnalyzeCounts` says how they split) |
| BomAnalyzer.AnalysisAgreesWithGenerate | bom_analyzer.py:68-76 | for a valid component with a description, "existant" means `generate_sku` returns that SKU and changes nothing (see also sku_generator.py:399-411) |
| BomAnalyzer.BlankDescriptionProbe | bom_analyzer.py:57-68 | with a blank description, the probe's fingerprint input differs from the one `generate_sku` stores (see also sku_generator.py:375-379) |
| BomAnalyzer.BlankAllSpace | sku_generator.py:375 | a blank non-empty text starts with whitespace |
| BomAnalyzer.TrimRightKeepsHead | sku_generator.py:375 | stripping on the right cannot empty a text starting with a non-space |
| BomAnalyzer.StatsTotals | bom_analyzer.py:140-163 | total is the row count, and the domain, route and routing counts each add up to it |
| BomAnalyzer.DatabaseStats | bom_analyzer.py:135-163 | the row count and the three GROUP BY breakdowns of the rows; `StatsTotals` and `StatsCounts` state their values |
| BomAnalyzer.StatsCounts | bom_analyzer.py:144-154 | each breakdown lists exactly the values of its column, each with the number of rows holding it |
| BomAnalyzer.ProbeFingerprint | bom_analyzer.py:57-68 | an electrical probe has the same fingerprint as the component the BOM routine builds from that row (see also main.py:28-38) |
| BomAnalyzer.BomComparator.constructor | bom_analyzer.py:17-18 | the comparator holds the generator it is given |
| BomAnalyzer.BomComparator.AnalyzeComponents | bom_analyzer.py:56-90 | the loop computes `Analyze` over the current rows; nothing is modified |
| BomAnalyzer.BomComparator.AnalyzeSheet | bom_analyzer.py:49-90 | the electrical sheet analysis is `Analyze` of its probes |
| BomAnalyzer.BomComparator.AnalyzeSheetMeca | bom_analyzer.py:92-133 | the mechanical sheet analysis is `Analyze` of its probes |
| BomAnalyzer.BomComparator.AnalyzeNewBom | bom_analyzer.py:20-47 | the result is `AnalyzeBom` of the sheets present |
| BomAnalyzer.BomComparator.GetDatabaseStats | bom_analyzer.py:135-163 | the total is the number of rows, and each domain, route and routing maps to the number of rows holding it |
| OdooExport.NormalizeDomain | odoo_export_config.py:58-68 | the result is always ELEC, MECA or DOC |
| OdooExport.ProductFor | odoo_export_config.py:76-97 | a product exactly when the row has SKU, Name and Description (otherwise `row[...]` raises) |
| OdooExport.PrepareAllMeaning | odoo_export_config.py:70-101 | a result exactly when every row gives a product; then one product per row, in order |
| OdooExport.PrepareAll | odoo_export_config.py:70-101 | the rows mapped by `ProductFor`, or none when one raises; `PrepareAllMeaning` states it |
| OdooExport.PrepareOdooExport | odoo_export_config.py:70-101 | the loop computes `PrepareAll` |
| OdooExport.PrepareStep | odoo_export_config.py:75-99 | one more row appends its product or makes the export raise |
| OdooExport.PrepareAbsorbs | odoo_export_config.py:75-99 | once a row raises, the whole export raises |
| OdooExport.DefaultsDisjoint | odoo_export_config.py:38-48 | no default key collides with a row-derived key (see also odoo_export_config.py:79-96) |
| OdooExport.DictKeys | odoo_export_config.py:79-97 | each product has the row keys plus every default, each with its default value |
| OdooExport.ProductFields | odoo_export_config.py:80-90 | default_code is the SKU, name the Name, description the Description or the Name when it is falsy, x_domain the normalized domain |
| OdooExport.AsDict | odoo_export_config.py:79-97 | the `product_data` dict of a product, with the `ODOO_DEFAULTS` entries merged in last; `DictKeys` states its keys and values |
| OdooExport.CategoryOf | odoo_export_config.py:83 | `DOMAIN_CATEGORIES.get(domain, 'Autres')`; `CategoryNeverAutres` shows the fallback is never taken |
| OdooExport.CategoryNeverAutres | odoo_export_config.py:51-83 | categ_id is the category of ELEC, MECA or DOC; the 'Autres' fallback never applies |
| OdooExport.NormalizeElec | odoo_export_config.py:62-65 | "ELEC" normalizes to ELEC |
| OdooExport.NormalizeMeca | odoo_export_config.py:62-67 | "MECA" normalizes to MECA |
| OdooExport.NormalizeDoc | odoo_export_config.py:62-68 | "DOC" normalizes to DOC |
| OdooExport.NormalizeIdempotent | odoo_export_config.py:58-68 | normalizing a result again returns it unchanged |
| OdooExport.ElecLabelNormalizes | odoo_export_config.py:64-65 | the electrical BOM's "ÉLECTRIQUE" normalizes to ELEC (see also main.py:52) |
| OdooExport.MecaLabelFixed | odoo_export_config.py:62 | "MÉCANIQUE" is unchanged by strip and upper |
| OdooExport.MecaLabelNormalizes | odoo_export_config.py:66-67 | the mechanical BOM's "MÉCANIQUE" normalizes to MECA (see also main.py:265) |
| OdooIntegration.Column | odoo_integration.py:173-186 | a column has one value per row |
| OdooIntegration.CollectInvalidSkus | odoo_integration.py:186-190 | the loop lists the values failing the format check, in order |
| OdooIntegration.ValidateOdooData | odoo_integration.py:164-195 | the loops compute `ValidationErrors` |
| OdooIntegration.ValidationErrors | odoo_integration.py:164-195 | the required-column errors, then the duplicate and format errors when 'default_code' is a column; `ValidationEmptyIff` and `ErrorsOrdered` state its meaning |
| OdooIntegration.HasNull | odoo_integration.py:175 | `isnull().any()`: some row holds a null in the column, a missing cell reading as NaN |
| OdooIntegration.ColumnErrors | odoo_integration.py:173-176 | a missing-column error for an absent column, else an empty-values error when it holds a null, else nothing; `ColumnErrorsMeaning` states what it adds to the validation errors |
| OdooIntegration.RequiredErrors | odoo_integration.py:172-176 | the column errors of the required columns, in column order; `RequiredErrorsMeaning` and `RequiredErrorsRanked` state it |
| OdooIntegration.SkuFormatOk | odoo_integration.py:189 | a value passes when it is a string that splits on '-' into exactly 5 fields |
| OdooIntegration.CodeErrors | odoo_integration.py:178-193 | when 'default_code' is a column: the duplicate error if there are duplicates, then the format error if some value fails; `ErrorsOrdered` and `ValidationEmptyIff` state it |
| OdooIntegration.RequiredErrorsMeaning | odoo_integration.py:172-176 | over any column list, a missing-column error exactly for listed absent columns, an empty-values error exactly for listed present columns holding a null |
| OdooIntegration.ColumnErrorsMeaning | odoo_integration.py:170-176 | missing-column errors exactly for the required columns absent, empty-values errors exactly for those present with a null, never both for one column |
| OdooIntegration.RequiredErrorsEmpty | odoo_integration.py:172-176 | no required-column error exactly when every column is present without a null |
| OdooIntegration.DuplicatesCount | odoo_integration.py:179-183 | each value is listed as duplicated once for every occurrence after its first |
| OdooIntegration.DuplicatesEmpty | odoo_integration.py:179-183 | no duplicate exactly when the values are pairwise different |
| OdooIntegration.Duplicates | odoo_integration.py:179-183 | `duplicated()` with keep='first': each value equal to an earlier one, in order; `DuplicatesCount` states its counts |
| OdooIntegration.InvalidSkusCount | odoo_integration.py:186-190 | every value that is not a string or does not split into 5 fields is listed once per occurrence, and no other value is |
| OdooIntegration.InvalidSkusEmpty | odoo_integration.py:186-193 | no format error exactly when every value passes |
| OdooIntegration.InvalidSkus | odoo_integration.py:186-193 | the values failing the format check, in order; `InvalidSkusCount` states its counts |
| OdooIntegration.ValidationEmptyIff | odoo_integration.py:164-195 | the list is empty exactly when all required columns are present and null-free, the SKUs are distinct and all have five fields |
| OdooIntegration.RequiredErrorsRanked | odoo_integration.py:172-176 | the first k required columns give at most one error each, in column order |
| OdooIntegration.ErrorsOrdered | odoo_integration.py:167-195 | errors come in the order default_code, name, categ_id, type, uom_id, then duplicates, then format, at most one of each |
| OdooIntegration.ThreeFieldSkuFlagged | odoo_integration.py:186-193 | a three-field SKU is listed in the format error, which is reported |
| OdooIntegration.GeneratedSkuFormatOk | odoo_integration.py:188 | a SKU of a dash-free key passes the format check (see also sku_generator.py:429-430) |
| OdooIntegration.StoreSkusPass | odoo_integration.py:178-193 | a frame listing the database's SKUs row by row draws no duplicate and no format error (see also sku_generator.py:144-153) |

## Left out

- SQLite plumbing: connections, commits and `CREATE TABLE`. The database is the two fields `records` (the `components` table in insertion order) and `counters` (the `sku_counters` table). The UNIQUE constraints become the store invariant and the failing insert of `Save`.
- md5 and its 8-hex-digit truncation: the fingerprint is the parameter `digest`, so fingerprint collisions between different components are not modelled.
- Unicode beyond Latin-1: `upper`, `isalnum`, `isspace` and NFD are modelled for U+0000..U+00FF. Above that range, characters are treated as unchanged, not alphanumeric and not whitespace.
- Concurrency: the GUI's threads and the non-transactional counter read-modify-write. Only sequential calls are modelled.
- GUI code, Excel/CSV/JSON reading and export, templates, and `process_bom_file` / `export_results`.
- `extract_components_from_bom`, and the `export_to_odoo_*` routines: these are file I/O around the modelled functions.
- The pandas row reading `str(row.get(...))`. Row fields are given as text. `str(nan)` and `str(None)` reach the model as the texts "nan" and "None", which validation rejects as placeholders.
- Logging, and the text of every log and error message. An error of `validate_odoo_data` is a constructor carrying its column or its list of values.
- `search_partial_sku`, `find_similar_components` and `get_all_skus`: they rely on LIKE case folding and `created_date` ordering (clock-dependent). `created_date` itself is not stored.
- `get_process_description`: a text lookup that no other routine uses.
- `ValueError` and the `IntegrityError` of a failing insert are outcomes (`InvalidComponent`, `DuplicateSku`), not exceptions. A batch loop counts either one as a skipped row, as its `except` clauses do.
- `Components.Validate`: the in-place update of `component.description` is modelled by returning the updated component; aliasing of one component object across lists is not captured.
- BomAnalyzer.BomComparator.GetDatabaseStats: the GROUP BY counts are a map, so the `ORDER BY COUNT(*) DESC` order of the dict is not modelled.
- OdooIntegration.Duplicates: values are compared structurally, so pandas' `1 == 1.0 == True` across cell types is not modelled.
- The 3-part "simplified" SKU layout and a `'format'` key in the decoded parts do not exist in the code, so they are not modelled. Only the 5-field layout is. `Decoder.ThreeFieldsRejected` shows a three-field SKU does not decode.

Where the code and its comments disagree, the model follows the code:

- The alphabet has 29 characters, `'9'` included. The comments say 28, and say `9` was removed.

Two behaviours of the code that the model keeps as written:

- `optimize_sku_format` is not idempotent: optimizing its own output can change it again (`Optimizer.OptimizeNotIdempotent`).
- The `BOMComparator` analysis looks up the fingerprint of the component as built, without validation. For a row with a blank description, the fingerprint input therefore differs from the one `generate_sku` stores after filling in the description (`BomAnalyzer.BlankDescriptionProbe`). Since the digest is a parameter, the model does not state that the lookup misses.

## Findings

| source | as written | input that shows it | evidently intended | confidence | as-written member | corrected member |
|---|---|---|---|---|---|---|
| main.py:90, main.py:125 | `extract_electrical_components` and `extract_mechanical_components` call `validate_component`, which `SKUGenerator` does not define (only `_validate_component`). Every row raises `AttributeError`, is counted as skipped, and both lists come back empty | any BOM sheet, for example one row with name "R1", type "Résistances" and domain ELEC, which `_validate_component` accepts | keep the rows that `_validate_component` accepts, with validation's update of the description, and count the rest as skipped | not executed | BomProcessor.ExtractAsWritten, BomProcessor.ExtractAsWrittenEmpty, BomProcessor.ExtractDropsValid | BomProcessor.Extract, BomProcessor.ExtractValidated, BomProcessor.BomProcessor.ExtractValid |
