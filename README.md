# LGPD compliance core and IBGE record pipeline, in Dafny

This project models two parts of a set of Brazilian public-data projects.

**LGPD compliance.** Under the Brazilian data protection law (Lei Geral de Proteção de Dados):

- `PIIScanner` finds personal data in a table, and checks CPF and CNPJ numbers with their check digits. It looks in two places:
  - the column names, against keyword lists;
  - the cell text of text columns, through per-type patterns.
- The scan result summarises the findings by risk level and lists recommendations.
- `DataAnonymizer` rewrites a column with one of seven techniques:
  - mask;
  - salted hash;
  - pseudonym;
  - generalisation;
  - suppression;
  - token from a vault kept on the object;
  - random noise.
- It also masks CPF, e-mail and telephone numbers in fixed formats.
- The anonymisation settings decide whether the configured hash salt is secure and which warning it draws.

**IBGE ETL.** The ETL pipeline for the Brazilian statistics institute (IBGE) works in two steps:

- It flattens a response of the SIDRA aggregate API (variables × results × series × years) into records. Brazilian-format numbers are converted on the way.
- It sorts regions, states, municipalities, population and GDP records into valid and rejected ones, following their schemas.

Modules:

- `Wrappers`: `Option` and `Result`.
- `Strings`: the Python string operations the core uses:
  - `re.sub(r'\D', '', s)`, `lower`/`upper` and `strip`;
  - slicing, `replace` and `str.count`;
  - decimal formatting and parsing, and `:08d`.
- `Frame`: a table as a value. It has a row count and named, typed columns of cells. This is the part of a pandas `DataFrame` the core relies on.
- `Settings`: the salt policy.
- `PiiScanner`: the scanner.
- `AnonymizerMethods`: the techniques that keep no state, and the three fixed maskers.
- `Anonymizer`: the `DataAnonymizer` class. Vault, counter and random draws are its fields. The class is specified against value-level functions (`TokenizeCells`, `AnonymizeColumnSpec`, `AnonymizeDataFrameSpec`).
- `SidraParser`: the SIDRA flattener and the numeric conversion.
- `DataValidator`: the schemas and the five partition loops.

Code that loops in the source is modelled as methods with loops, each proved equal to a specification function. These are:

- the column scan;
- the risk summary and the recommendations;
- the tokeniser;
- the pseudonym draw;
- the SIDRA loops;
- the validation loops.

Lemmas then state what the source promises about those functions.

Foreign code is passed in as a parameter of a restricted function type:

- the regex engine;
- `hashlib`;
- `Faker`;
- `pd.cut`;
- numpy's random generators;
- Python's `float()` on strings.

Where the settings' docstrings and the code differ, the model follows the code. One example: the anonymiser's salt check at construction reads the salt of the settings, not the salt passed to the constructor.

## Model

| member | source | states |
|---|---|---|
| Settings.ShortSaltWarning | projeto5-compliance-lgpd/config/settings.py:116-117 | the short-salt warning starts with the "AVISO: " prefix |
| Settings.GetSaltWarning | projeto5-compliance-lgpd/config/settings.py:112-118 | the critical warning iff the salt is the shipped default; the short-salt warning iff it is another salt shorter than the minimum; the empty string iff neither |
| Settings.WarningEmptyIffSecure | projeto5-compliance-lgpd/config/settings.py:98-118 | when the minimum length exceeds 12 (the longest denied salt other than the shipped default), no warning iff the salt is secure |
| Settings.DefaultMinimumWarningIffSecure | projeto5-compliance-lgpd/config/settings.py:92-118 | with the shipped minimum of 16, no warning iff the salt is secure, for every salt |
| Settings.WarningCanMissDeniedSalt | projeto5-compliance-lgpd/config/settings.py:100-118 | with a minimum of 12, the denied salt "default_salt" draws no warning and is still not secure |
| Settings.DefaultSaltIsInsecure | projeto5-compliance-lgpd/config/settings.py:89-118 | the shipped default salt is not secure and draws the critical warning |
| Frame.IndexOf | projeto5-compliance-lgpd/src/anonymizers/data_anonymizer.py:111-112 | finds the first column with the name, or reports that no column has it |
| Frame.DropNull | projeto5-compliance-lgpd/src/scanners/pii_scanner.py:250 | `dropna()`: keeps exactly the non-null cells, each as often as it occurs; empty iff every cell is null |
| Frame.DropNullAppend | projeto5-compliance-lgpd/src/scanners/pii_scanner.py:250 | the filter distributes over concatenation, so the kept cells stay in their order |
| Frame.ReplaceColumn | projeto5-compliance-lgpd/src/anonymizers/data_anonymizer.py:129 | `df[column] = ...`: only column i changes; the rows and the other columns are kept |
| PiiScanner.FirstNameType | projeto5-compliance-lgpd/src/scanners/pii_scanner.py:247-262 | the first PII type, in declaration order, whose keywords occur in the lower-cased name; none iff no type's keywords occur |
| PiiScanner.Samples | projeto5-compliance-lgpd/src/scanners/pii_scanner.py:252 | one `str` rendering per sampled cell; the i-th is the rendering of the i-th cell |
| PiiScanner.NameMatchFacts | projeto5-compliance-lgpd/src/scanners/pii_scanner.py:247-262 | the name check yields at most one finding. It yields one iff a type's keywords match and the column has a non-null cell. That finding has the first matching type, its risk, the non-null count, at most five samples and the column-name method |
| PiiScanner.AllNullNameNoMatch | projeto5-compliance-lgpd/src/scanners/pii_scanner.py:250-251 | an all-null column never matches by name |
| PiiScanner.Hits | projeto5-compliance-lgpd/src/scanners/pii_scanner.py:273-275 | a cell is a hit iff it is sampled and the type's pattern matches its text |
| PiiScanner.HitsCounts | projeto5-compliance-lgpd/src/scanners/pii_scanner.py:273-275 | each matching cell is a hit as often as it was sampled; a non-matching cell never is |
| PiiScanner.HitsAppend | projeto5-compliance-lgpd/src/scanners/pii_scanner.py:273-275 | hits of concatenated samples concatenate, so hits keep the sample order |
| PiiScanner.EstimateBounds | projeto5-compliance-lgpd/src/scanners/pii_scanner.py:279-282 | the estimated count lies between the sample hits and the non-null count |
| PiiScanner.PatternMatchFacts | projeto5-compliance-lgpd/src/scanners/pii_scanner.py:265-291 | a pattern check yields at most one finding, iff the sample holds a hit. It carries the column, type, risk, estimated count and regex method |
| PiiScanner.AppendPatternFinding | projeto5-compliance-lgpd/src/scanners/pii_scanner.py:268-291 | adding a pattern finding for a type not yet found keeps the column's findings one per type |
| PiiScanner.MatchesAfterFindings | projeto5-compliance-lgpd/src/scanners/pii_scanner.py:247-291 | the findings so far are all about the column, one per type |
| PiiScanner.ColumnMatchesFindings | projeto5-compliance-lgpd/src/scanners/pii_scanner.py:233-293 | a column's findings all name it and never repeat a type |
| PiiScanner.NonTextColumnNameOnly | projeto5-compliance-lgpd/src/scanners/pii_scanner.py:265 | non-text columns are found only by name |
| PiiScanner.EmptyColumnNoMatch | projeto5-compliance-lgpd/src/scanners/pii_scanner.py:277-282 | an empty column yields no pattern finding |
| PiiScanner.ScanColumnName | projeto5-compliance-lgpd/src/scanners/pii_scanner.py:247-262 | the keyword loop returns the name finding of the specification |
| PiiScanner.PatternFinding | projeto5-compliance-lgpd/src/scanners/pii_scanner.py:272-291 | one pattern check returns the specified finding |
| PiiScanner.ScanColumn | projeto5-compliance-lgpd/src/scanners/pii_scanner.py:233-293 | the loop over name and patterns returns the specified column findings |
| PiiScanner.CountLevel | projeto5-compliance-lgpd/src/scanners/pii_scanner.py:295-302 | a risk level's count never exceeds the number of findings |
| PiiScanner.CalculateRiskSummary | projeto5-compliance-lgpd/src/scanners/pii_scanner.py:295-302 | the counting loop returns the per-level summary of the specification |
| PiiScanner.RiskSummaryTotal | projeto5-compliance-lgpd/src/scanners/pii_scanner.py:295-302 | the summary has exactly the four levels and its counts add up to the number of findings |
| PiiScanner.UrgentAdvice | projeto5-compliance-lgpd/src/scanners/pii_scanner.py:311-314 | the urgent advice is a non-empty text starting with 'U' |
| PiiScanner.Rule | projeto5-compliance-lgpd/src/scanners/pii_scanner.py:310-345 | a rule contributes its message iff its condition holds |
| PiiScanner.GenerateRecommendations | projeto5-compliance-lgpd/src/scanners/pii_scanner.py:304-347 | the five checks build the specified recommendation list |
| PiiScanner.AdviceDistinct | projeto5-compliance-lgpd/src/scanners/pii_scanner.py:309-345 | the five advice texts are pairwise different |
| PiiScanner.RecommendationsFacts | projeto5-compliance-lgpd/src/scanners/pii_scanner.py:304-347 | no findings iff no advice. The general advice closes a non-empty list. Each advice appears iff its kind of finding exists: critical first, then CPF/CNPJ, health, e-mail |
| PiiScanner.RecommendationsDistinct | projeto5-compliance-lgpd/src/scanners/pii_scanner.py:304-347 | no advice appears twice |
| PiiScanner.UrgentCountReadable | projeto5-compliance-lgpd/src/scanners/pii_scanner.py:311-312 | the number of critical findings can be read back from the urgent advice |
| PiiScanner.KeepExisting | projeto5-compliance-lgpd/src/scanners/pii_scanner.py:196 | a name is kept iff it was requested and is a column |
| PiiScanner.KeepExistingCounts | projeto5-compliance-lgpd/src/scanners/pii_scanner.py:196 | each existing requested name is kept as often as it was requested; a missing one never |
| PiiScanner.KeepExistingAppend | projeto5-compliance-lgpd/src/scanners/pii_scanner.py:196 | the filter distributes over concatenation, so the requested order is kept |
| PiiScanner.ScanColumns | projeto5-compliance-lgpd/src/scanners/pii_scanner.py:201-203 | the column loop returns the concatenated findings of the specification |
| PiiScanner.Scan | projeto5-compliance-lgpd/src/scanners/pii_scanner.py:174-231 | the scan method returns the specified result |
| PiiScanner.MatchesOfColumns | projeto5-compliance-lgpd/src/scanners/pii_scanner.py:201-203 | every finding names a scanned column |
| PiiScanner.MatchesOfUnique | projeto5-compliance-lgpd/src/scanners/pii_scanner.py:201-203 | over distinct columns, no (column, type) pair is found twice |
| PiiScanner.AllColumnsScannable | projeto5-compliance-lgpd/src/scanners/pii_scanner.py:195-196 | every table column exists and names are distinct |
| PiiScanner.ScanCounts | projeto5-compliance-lgpd/src/scanners/pii_scanner.py:214-224 | the result reports the row count, the column count, the scanned count, all four levels and the summary of the findings |
| PiiScanner.ScanAllUnique | projeto5-compliance-lgpd/src/scanners/pii_scanner.py:193-203 | scanning all columns scans each once and finds each (column, type) at most once |
| PiiScanner.KeepAllExisting | projeto5-compliance-lgpd/src/scanners/pii_scanner.py:196 | a list of existing columns is kept as it is |
| PiiScanner.ScanSelectsExisting | projeto5-compliance-lgpd/src/scanners/pii_scanner.py:193-203 | only requested, existing columns are scanned and appear in findings |
| PiiScanner.ScanEmptyTable | projeto5-compliance-lgpd/src/scanners/pii_scanner.py:174-231 | a table without rows yields no findings and no advice |
| PiiScanner.EmptyTableMatches | projeto5-compliance-lgpd/src/scanners/pii_scanner.py:201-203 | no column of an empty table yields a finding |
| PiiScanner.CpfColumnByName | projeto5-compliance-lgpd/src/scanners/pii_scanner.py:127-157 | a column named "cpf" with a value is found by name as CPF at high risk |
| PiiScanner.CheckDigit | projeto5-compliance-lgpd/src/scanners/pii_scanner.py:368-375 | a check digit is a single digit |
| PiiScanner.AllSameIsRepeat | projeto5-compliance-lgpd/src/scanners/pii_scanner.py:364 | "all digits equal" is exactly `s == s[0] * len(s)` |
| PiiScanner.ValidationIgnoresFormatting | projeto5-compliance-lgpd/src/scanners/pii_scanner.py:359 | validation depends only on the digits of the text |
| PiiScanner.CheckDigitsComplete | projeto5-compliance-lgpd/src/scanners/pii_scanner.py:366-377 | for a base that is not a run, the number is valid iff its two last digits are the computed ones |
| PiiScanner.CpfCompletion | projeto5-compliance-lgpd/src/scanners/pii_scanner.py:349-377 | every 9-digit base that is not a run has exactly one valid pair of CPF check digits |
| PiiScanner.CnpjCompletion | projeto5-compliance-lgpd/src/scanners/pii_scanner.py:379-409 | every 12-digit base that is not a run has exactly one valid pair of CNPJ check digits |
| PiiScanner.RunRejected | projeto5-compliance-lgpd/src/scanners/pii_scanner.py:364-365 | a run of one digit is never a valid CPF |
| PiiScanner.RepeatedCpfRejected | projeto5-compliance-lgpd/src/scanners/pii_scanner.py:364-377 | a run of eleven equal digits passes the check-digit test: only the explicit run test rejects it |
| PiiScanner.KnownCpf | projeto5-compliance-lgpd/src/scanners/pii_scanner.py:349-377 | a well-known valid CPF is accepted |
| PiiScanner.BrokenCpf | projeto5-compliance-lgpd/src/scanners/pii_scanner.py:377 | changing its last digit makes it invalid |
| PiiScanner.KnownCnpj | projeto5-compliance-lgpd/src/scanners/pii_scanner.py:379-409 | a well-known valid CNPJ is accepted |
| AnonymizerMethods.ParseMethod | projeto5-compliance-lgpd/src/anonymizers/data_anonymizer.py:28-36 | `AnonymizationMethod(value)`: the member with that value, or none iff no member has it |
| AnonymizerMethods.ParseMethodValue | projeto5-compliance-lgpd/src/anonymizers/data_anonymizer.py:28-36 | each member's value parses back to it |
| AnonymizerMethods.Apply | projeto5-compliance-lgpd/src/anonymizers/data_anonymizer.py:203 | `series.apply`: same length, the function on every cell |
| AnonymizerMethods.MaskCell | projeto5-compliance-lgpd/src/anonymizers/data_anonymizer.py:184-186 | nulls stay null and nothing else becomes null |
| AnonymizerMethods.MaskDefaultHidesAll | projeto5-compliance-lgpd/src/anonymizers/data_anonymizer.py:194-195 | by default every character is replaced by '*' |
| AnonymizerMethods.MaskPatternVerbatim | projeto5-compliance-lgpd/src/anonymizers/data_anonymizer.py:190-192 | a non-empty pattern replaces each value as it is |
| AnonymizerMethods.MaskKeepsEnds | projeto5-compliance-lgpd/src/anonymizers/data_anonymizer.py:197-201 | when the visible ends fit, the length is kept, the first and last characters are shown and the middle is masked |
| AnonymizerMethods.MaskOverlapRepeats | projeto5-compliance-lgpd/src/anonymizers/data_anonymizer.py:197-201 | overlapping visible ends repeat characters ("abc" becomes "abbc") |
| AnonymizerMethods.ResolveAlgorithm | projeto5-compliance-lgpd/src/anonymizers/data_anonymizer.py:227-234 | sha512 and md5 by name, sha256 otherwise |
| AnonymizerMethods.HashCell | projeto5-compliance-lgpd/src/anonymizers/data_anonymizer.py:219-221 | nulls stay null and nothing else becomes null |
| AnonymizerMethods.HashShape | projeto5-compliance-lgpd/src/anonymizers/data_anonymizer.py:219-239 | the hash is a hex prefix of the digest of salt + text: the full digest, or `truncate` characters of it |
| AnonymizerMethods.HashUnknownIsSha256 | projeto5-compliance-lgpd/src/anonymizers/data_anonymizer.py:227-234 | an unknown algorithm name hashes like sha256, to 64 characters |
| AnonymizerMethods.HashDistinct | projeto5-compliance-lgpd/src/anonymizers/data_anonymizer.py:205-241 | untruncated and without a digest collision, two hashes agree iff salt and text agree, for one salt and two texts or one text and two salts |
| AnonymizerMethods.HashConsistent | projeto5-compliance-lgpd/src/anonymizers/data_anonymizer.py:205-241 | equal cells get equal hashes |
| AnonymizerMethods.Unique | projeto5-compliance-lgpd/src/anonymizers/data_anonymizer.py:270 | `dropna().unique()`: every non-null value once |
| AnonymizerMethods.InsertByCount | projeto5-compliance-lgpd/src/anonymizers/data_anonymizer.py:305 | inserting keeps the values as a multiset |
| AnonymizerMethods.InsertSorted | projeto5-compliance-lgpd/src/anonymizers/data_anonymizer.py:305 | inserting keeps the list sorted by descending frequency |
| AnonymizerMethods.SortByCount | projeto5-compliance-lgpd/src/anonymizers/data_anonymizer.py:305 | `value_counts()` ordering is a permutation |
| AnonymizerMethods.SortByCountSorted | projeto5-compliance-lgpd/src/anonymizers/data_anonymizer.py:305 | and is sorted by descending frequency |
| AnonymizerMethods.TopValuesAreMostFrequent | projeto5-compliance-lgpd/src/anonymizers/data_anonymizer.py:305 | the kept `bins - 1` values occur in the column, are at least as frequent as every dropped value, and are as many as exist up to that bound |
| AnonymizerMethods.SortedPrefixDominates | projeto5-compliance-lgpd/src/anonymizers/data_anonymizer.py:305 | a prefix of a frequency-sorted list dominates the rest |
| AnonymizerMethods.GroupByFrequencyCells | projeto5-compliance-lgpd/src/anonymizers/data_anonymizer.py:303-306 | each cell is kept when among the top values, else becomes "Outros"; nulls always become "Outros" |
| AnonymizerMethods.TruncateCell | projeto5-compliance-lgpd/src/anonymizers/data_anonymizer.py:299-301 | the first three characters of the text, then "***" |
| AnonymizerMethods.GeneralizeColumn | projeto5-compliance-lgpd/src/anonymizers/data_anonymizer.py:275-306 | one output cell per input cell |
| AnonymizerMethods.RangeNeedsNumeric | projeto5-compliance-lgpd/src/anonymizers/data_anonymizer.py:291-306 | "range" on a non-numeric column falls through to frequency grouping |
| AnonymizerMethods.TruncateFillsNulls | projeto5-compliance-lgpd/src/anonymizers/data_anonymizer.py:299-301 | truncation turns every cell, nulls included, into text ending in "***" |
| AnonymizerMethods.SuppressColumn | projeto5-compliance-lgpd/src/anonymizers/data_anonymizer.py:308-320 | every cell becomes the replacement |
| AnonymizerMethods.MaskCpfReveals | projeto5-compliance-lgpd/src/anonymizers/data_anonymizer.py:381-386 | the masked CPF has 14 characters; with eleven digits only the first three and the last two are shown, otherwise the fully hidden form |
| AnonymizerMethods.MaskCpfHidesMiddle | projeto5-compliance-lgpd/src/anonymizers/data_anonymizer.py:381-386 | CPFs differing only in the hidden digits mask alike |
| AnonymizerMethods.MaskFormattedCpf | projeto5-compliance-lgpd/src/anonymizers/data_anonymizer.py:381-386 | "ddd.ddd.ddd-dd" becomes "ddd.***.***-dd" |
| AnonymizerMethods.MaskCpfInvalidExample | projeto5-compliance-lgpd/src/anonymizers/data_anonymizer.py:381-386 | a text without eleven digits yields the fully hidden form |
| AnonymizerMethods.MaskUser | projeto5-compliance-lgpd/src/anonymizers/data_anonymizer.py:391-395 | the masked user part keeps its length, or has one character when the user part is short |
| AnonymizerMethods.MaskEmailShape | projeto5-compliance-lgpd/src/anonymizers/data_anonymizer.py:388-396 | the result has exactly one '@'. It shows the first user character and masks the rest, then keeps the domain up to any second '@' |
| AnonymizerMethods.MaskedAddressShape | projeto5-compliance-lgpd/src/anonymizers/data_anonymizer.py:391-395 | the same, for an address containing '@' |
| AnonymizerMethods.MaskPlainEmail | projeto5-compliance-lgpd/src/anonymizers/data_anonymizer.py:391-395 | "user@domain" becomes its first letter, stars and "@domain" |
| AnonymizerMethods.MaskEmailInvalidExample | projeto5-compliance-lgpd/src/anonymizers/data_anonymizer.py:396 | text without '@' yields the hidden form |
| AnonymizerMethods.MaskTelefoneReveals | projeto5-compliance-lgpd/src/anonymizers/data_anonymizer.py:398-404 | 15 characters; with at least ten digits only the area code is shown, otherwise the hidden form |
| AnonymizerMethods.MaskFormattedTelefone | projeto5-compliance-lgpd/src/anonymizers/data_anonymizer.py:398-404 | "(dd) nnnnn-nnnn" becomes "(dd) *****-****" |
| AnonymizerMethods.MaskTelefoneInvalidExample | projeto5-compliance-lgpd/src/anonymizers/data_anonymizer.py:404 | too few digits yields the hidden form |
| Anonymizer.ValidateSalt | projeto5-compliance-lgpd/src/anonymizers/data_anonymizer.py:72-89 | an error iff strict mode and the settings draw a warning; the error quotes it |
| Anonymizer.EffectiveSalt | projeto5-compliance-lgpd/src/anonymizers/data_anonymizer.py:61 | the given salt unless missing or empty, then the settings' salt |
| Anonymizer.StrictIgnoresExplicitSalt | projeto5-compliance-lgpd/src/anonymizers/data_anonymizer.py:61-68 | strict mode with the shipped settings fails even when a secure salt is passed, and that salt would be used |
| Anonymizer.ValidateSaltPasses | projeto5-compliance-lgpd/src/anonymizers/data_anonymizer.py:72-89 | a secure settings salt, or non-strict mode, passes |
| Anonymizer.Bind | projeto5-compliance-lgpd/src/anonymizers/data_anonymizer.py:129 | keyword arguments bind iff each is a parameter of the technique with a fitting type; unknown names are reported |
| Anonymizer.BindDefaults | projeto5-compliance-lgpd/src/anonymizers/data_anonymizer.py:166-377 | no keywords gives each technique its documented defaults |
| Anonymizer.BindPrefix | projeto5-compliance-lgpd/src/anonymizers/data_anonymizer.py:322-326 | `prefix` sets the token prefix |
| Anonymizer.BindTruncate | projeto5-compliance-lgpd/src/anonymizers/data_anonymizer.py:205-210 | `truncate` sets the hash length |
| Anonymizer.BindReplacement | projeto5-compliance-lgpd/src/anonymizers/data_anonymizer.py:308-312 | `replacement` sets the suppression value |
| Anonymizer.BindVisibleStart | projeto5-compliance-lgpd/src/anonymizers/data_anonymizer.py:166-172 | `visible_start` sets the masked prefix |
| Anonymizer.BindRefusesUnknown | projeto5-compliance-lgpd/src/anonymizers/data_anonymizer.py:129 | an unknown keyword is refused by name |
| Anonymizer.TokenizeCells | projeto5-compliance-lgpd/src/anonymizers/data_anonymizer.py:322-346 | one output cell per input |
| Anonymizer.TokenizeNumbered | projeto5-compliance-lgpd/src/anonymizers/data_anonymizer.py:339-342 | the vault stays numbered: the k-th new text gets the token ending in the 8-digit k |
| Anonymizer.TokenEncodesIssueOrder | projeto5-compliance-lgpd/src/anonymizers/data_anonymizer.py:341-342 | a token's number is its text's issue position |
| Anonymizer.TokensInjective | projeto5-compliance-lgpd/src/anonymizers/data_anonymizer.py:339-342 | below 10^8 tokens, different texts have different tokens |
| Anonymizer.TokenizeNulls | projeto5-compliance-lgpd/src/anonymizers/data_anonymizer.py:335-336 | nulls stay null and nothing else becomes null |
| Anonymizer.TokenizeKeepsVault | projeto5-compliance-lgpd/src/anonymizers/data_anonymizer.py:339-344 | existing tokens are never changed and the counter never goes back |
| Anonymizer.TokenizeOrigin | projeto5-compliance-lgpd/src/anonymizers/data_anonymizer.py:339-342 | every new vault key is the text of a cell |
| Anonymizer.TokenizeLookup | projeto5-compliance-lgpd/src/anonymizers/data_anonymizer.py:334-346 | every non-null cell becomes the vault's token for its text |
| Anonymizer.TokenizeFacts | projeto5-compliance-lgpd/src/anonymizers/data_anonymizer.py:322-346 | the above together |
| Anonymizer.TokenizeKnown | projeto5-compliance-lgpd/src/anonymizers/data_anonymizer.py:339 | when every text is known, the vault is unchanged |
| Anonymizer.TokenizeIdempotent | projeto5-compliance-lgpd/src/anonymizers/data_anonymizer.py:339-344 | tokenising the same cells again, with any prefix, leaves the vault and the output as they were |
| Anonymizer.NewValueToken | projeto5-compliance-lgpd/src/anonymizers/data_anonymizer.py:339-342 | a new text gets prefix + counter+1 as 8 digits |
| Anonymizer.FirstTokenFormat | projeto5-compliance-lgpd/src/anonymizers/data_anonymizer.py:342 | the first token is prefix + "00000001" |
| Anonymizer.PseudonymMap | projeto5-compliance-lgpd/src/anonymizers/data_anonymizer.py:271 | the mapping's keys are exactly the values |
| Anonymizer.PseudonymMapAt | projeto5-compliance-lgpd/src/anonymizers/data_anonymizer.py:271 | the k-th distinct value gets the k-th draw |
| Anonymizer.MapThrough | projeto5-compliance-lgpd/src/anonymizers/data_anonymizer.py:273 | `series.map`: a mapped cell becomes its pseudonym, others become null |
| Anonymizer.PseudonymizeCells | projeto5-compliance-lgpd/src/anonymizers/data_anonymizer.py:243-273 | one output per input |
| Anonymizer.PseudonymAt | projeto5-compliance-lgpd/src/anonymizers/data_anonymizer.py:270-273 | a cell equal to the k-th distinct value becomes the k-th draw |
| Anonymizer.PseudonymizeConsistent | projeto5-compliance-lgpd/src/anonymizers/data_anonymizer.py:243-273 | one draw per distinct value; nulls stay null; equal cells get equal pseudonyms |
| Anonymizer.PseudonymsDistinct | projeto5-compliance-lgpd/src/anonymizers/data_anonymizer.py:270-273 | if draws never repeat, distinct values get distinct pseudonyms |
| Anonymizer.RewriteColumn | projeto5-compliance-lgpd/src/anonymizers/data_anonymizer.py:115-129 | one cell per input; only tokenising touches the vault, only pseudonyms the Faker draws, only noise the noise draws |
| Anonymizer.AnonymizeColumnSpec | projeto5-compliance-lgpd/src/anonymizers/data_anonymizer.py:91-133 | a failed call leaves the state as it was |
| Anonymizer.AnonymizeColumnFacts | projeto5-compliance-lgpd/src/anonymizers/data_anonymizer.py:109-133 | success keeps the shape and changes only the named column; a missing column is reported; only tokenising touches the vault |
| Anonymizer.UnsupportedMethodRefused | projeto5-compliance-lgpd/src/anonymizers/data_anonymizer.py:124-126 | an unknown method is refused |
| Anonymizer.ConfigStep | projeto5-compliance-lgpd/src/anonymizers/data_anonymizer.py:154-160 | a failed entry leaves the state as it was |
| Anonymizer.ConfigStepFacts | projeto5-compliance-lgpd/src/anonymizers/data_anonymizer.py:154-160 | an absent column is skipped unchanged; without "method" the column is masked |
| Anonymizer.DataFrameErrorSticks | projeto5-compliance-lgpd/src/anonymizers/data_anonymizer.py:154-162 | the first failing entry decides the outcome |
| Anonymizer.DataFrameFacts | projeto5-compliance-lgpd/src/anonymizers/data_anonymizer.py:135-162 | success keeps the shape and leaves columns no entry names unchanged |
| Anonymizer.DrawFrom | projeto5-compliance-lgpd/src/anonymizers/data_anonymizer.py:271 | the draw loop builds the specified mapping |
| Anonymizer.DataAnonymizer.constructor | projeto5-compliance-lgpd/src/anonymizers/data_anonymizer.py:53-65 | an empty vault, counter 0, no draws |
| Anonymizer.DataAnonymizer.Create | projeto5-compliance-lgpd/src/anonymizers/data_anonymizer.py:53-89 | fails iff strict mode and the settings warn; otherwise a fresh anonymiser with the effective salt |
| Anonymizer.DataAnonymizer.TokenizeColumn | projeto5-compliance-lgpd/src/anonymizers/data_anonymizer.py:322-346 | the vault and output are those of the specification; the vault stays numbered |
| Anonymizer.DataAnonymizer.DrawPseudonyms | projeto5-compliance-lgpd/src/anonymizers/data_anonymizer.py:270-271 | draws one pseudonym per value, advancing the Faker draws by that count |
| Anonymizer.DataAnonymizer.PseudonymizeColumn | projeto5-compliance-lgpd/src/anonymizers/data_anonymizer.py:243-273 | the specified pseudonymised column and draw count |
| Anonymizer.DataAnonymizer.AddNoise | projeto5-compliance-lgpd/src/anonymizers/data_anonymizer.py:348-377 | the specified noised column; a non-numeric column is returned as it is |
| Anonymizer.DataAnonymizer.RunTechnique | projeto5-compliance-lgpd/src/anonymizers/data_anonymizer.py:115-129 | dispatches to the technique, as the specification says |
| Anonymizer.DataAnonymizer.AnonymizeColumn | projeto5-compliance-lgpd/src/anonymizers/data_anonymizer.py:91-133 | the outcome and the new state of the specification |
| Anonymizer.DataAnonymizer.ConfigEntry | projeto5-compliance-lgpd/src/anonymizers/data_anonymizer.py:154-160 | one configuration entry, as specified |
| Anonymizer.DataAnonymizer.AnonymizeDataFrame | projeto5-compliance-lgpd/src/anonymizers/data_anonymizer.py:135-162 | the configuration loop, as specified |
| Anonymizer.DataAnonymizer.GetTokenMapping | projeto5-compliance-lgpd/src/anonymizers/data_anonymizer.py:406-408 | the vault |
| Anonymizer.DataAnonymizer.ClearTokenMapping | projeto5-compliance-lgpd/src/anonymizers/data_anonymizer.py:410-413 | an empty vault and counter 0; the draws are unchanged |
| SidraParser.NormaliseSeparators | projeto1-etl-ibge/src/utils/sidra_parser.py:176-178 | after normalising, no ',' is left. There are as many '.' as there were ','. Every other non-blank character is kept in number |
| SidraParser.NormaliseBrazilian | projeto1-etl-ibge/src/utils/sidra_parser.py:176-178 | "1.234.567,89"-style text becomes "1234567.89" |
| SidraParser.ParseNumeric | projeto1-etl-ibge/src/utils/sidra_parser.py:168-185 | numbers pass through, booleans become 1.0/0.0, strings are normalised and converted, anything else is none |
| SidraParser.ParseBrazilian | projeto1-etl-ibge/src/utils/sidra_parser.py:174-179 | a Brazilian-notation string "1.234.567,89" parses as `float("1234567.89")` |
| SidraParser.ParseBlank | projeto1-etl-ibge/src/utils/sidra_parser.py:174-179 | blanks around a string value do not change its number |
| SidraParser.ParseWithoutComma | projeto1-etl-ibge/src/utils/sidra_parser.py:174-179 | the text given to `float` never holds a ',': parsers that agree on comma-free text agree on every value |
| SidraParser.YearRoundTrip | projeto1-etl-ibge/src/utils/sidra_parser.py:132 | `int()` reads back every formatted integer |
| SidraParser.YearIgnoresBlanks | projeto1-etl-ibge/src/utils/sidra_parser.py:132 | `int()` ignores surrounding blanks |
| SidraParser.CategoriesLastWins | projeto1-etl-ibge/src/utils/sidra_parser.py:103-105 | a classification's last category wins |
| SidraParser.ClassifColumnInjective | projeto1-etl-ibge/src/utils/sidra_parser.py:105 | different classification names give different columns |
| SidraParser.ClassifColumns | projeto1-etl-ibge/src/utils/sidra_parser.py:97-105 | a column exists iff a classification with categories has that name |
| SidraParser.ClassifValue | projeto1-etl-ibge/src/utils/sidra_parser.py:97-105 | the last classification of a name decides its value |
| SidraParser.EntryRecords | projeto1-etl-ibge/src/utils/sidra_parser.py:119-138 | an error iff the value is kept and numeric but the year is not an integer. Otherwise at most one record, present iff the value is kept and numeric, and built from the entry |
| SidraParser.EmitAppend | projeto1-etl-ibge/src/utils/sidra_parser.py:88-138 | records come in entry order |
| SidraParser.EmitBounded | projeto1-etl-ibge/src/utils/sidra_parser.py:117-138 | at most one record per entry |
| SidraParser.EmitProvenance | projeto1-etl-ibge/src/utils/sidra_parser.py:117-138 | every record comes from an entry |
| SidraParser.EmitComplete | projeto1-etl-ibge/src/utils/sidra_parser.py:117-138 | every kept numeric entry has an integer year and its record is emitted |
| SidraParser.EmitFails | projeto1-etl-ibge/src/utils/sidra_parser.py:117-138 | a run of entries raises iff one of its entries does |
| SidraParser.EmitFirstError | projeto1-etl-ibge/src/utils/sidra_parser.py:117-138 | the error raised is the one of the first failing entry |
| SidraParser.EmitErrorSource | projeto1-etl-ibge/src/utils/sidra_parser.py:117-138 | the error raised is the one of some entry of the run |
| SidraParser.EntriesOrigin | projeto1-etl-ibge/src/utils/sidra_parser.py:88-118 | the entries are exactly the (variable, result, series, year) combinations of the response |
| SidraParser.EntriesLength | projeto1-etl-ibge/src/utils/sidra_parser.py:88-118 | one entry per year value in the response |
| SidraParser.EmptyResponse | projeto1-etl-ibge/src/utils/sidra_parser.py:82-84 | an empty response gives no records |
| SidraParser.SidraFacts | projeto1-etl-ibge/src/utils/sidra_parser.py:88-140 | on success: at most one record per year value; each record comes from an entry of the response; every kept numeric entry contributes its record |
| SidraParser.SidraErrors | projeto1-etl-ibge/src/utils/sidra_parser.py:88-140 | the parser raises iff some year entry is kept and numeric under a year key `int` refuses, and the error names such a key |
| SidraParser.SidraOrder | projeto1-etl-ibge/src/utils/sidra_parser.py:88 | variables contribute in order |
| SidraParser.EntriesAppend | projeto1-etl-ibge/src/utils/sidra_parser.py:88 | entries of concatenated responses concatenate |
| SidraParser.CollectClassifications | projeto1-etl-ibge/src/utils/sidra_parser.py:97-105 | the nested loop builds the specified classification map |
| SidraParser.AppendSerie | projeto1-etl-ibge/src/utils/sidra_parser.py:109-138 | one series' records appended, or its error |
| SidraParser.AppendVariavel | projeto1-etl-ibge/src/utils/sidra_parser.py:88-138 | one variable's records appended, or its error |
| SidraParser.ParseSidraResponse | projeto1-etl-ibge/src/utils/sidra_parser.py:17-149 | the loops produce the specified records; an empty response gives none |
| DataValidator.Check | projeto1-etl-ibge/src/transformers/data_validator.py:14-16 | one field reported iff its constraint fails |
| DataValidator.RegiaoErrors | projeto1-etl-ibge/src/transformers/data_validator.py:11-16 | each field reported iff its constraint fails; none iff valid |
| DataValidator.ValidateRegiao | projeto1-etl-ibge/src/transformers/data_validator.py:11-16 | accepted iff valid and returned as it is; otherwise its violations |
| DataValidator.RegionRefErrors | projeto1-etl-ibge/src/transformers/data_validator.py:25-27 | the region fields, each iff its constraint fails |
| DataValidator.EstadoErrors | projeto1-etl-ibge/src/transformers/data_validator.py:19-27 | each field reported iff its constraint fails |
| DataValidator.NormaliseSigla | projeto1-etl-ibge/src/transformers/data_validator.py:29-34 | upper-cases, keeps the length, leaves an upper-case sigla alone |
| DataValidator.ValidateEstado | projeto1-etl-ibge/src/transformers/data_validator.py:19-34 | accepted iff valid, with the sigla upper-cased; otherwise its violations |
| DataValidator.StateRefErrors | projeto1-etl-ibge/src/transformers/data_validator.py:46-48 | the state fields, each iff its constraint fails |
| DataValidator.MunicipioErrors | projeto1-etl-ibge/src/transformers/data_validator.py:37-51 | a field appears iff it violates its constraint |
| DataValidator.MunicipioErrorsEmpty | projeto1-etl-ibge/src/transformers/data_validator.py:37-51 | no violation iff valid |
| DataValidator.ValidateMunicipio | projeto1-etl-ibge/src/transformers/data_validator.py:37-51 | accepted iff valid; otherwise its violations |
| DataValidator.MunicipioCodeDigits | projeto1-etl-ibge/src/transformers/data_validator.py:40 | the code range is exactly "seven decimal digits" |
| DataValidator.DecimalWidth | projeto1-etl-ibge/src/transformers/data_validator.py:40 | k digits iff 10^(k-1) <= n < 10^k |
| DataValidator.PopulacaoErrors | projeto1-etl-ibge/src/transformers/data_validator.py:63-72 | the year is reported iff out of 1900..2100 or past next year; the value iff negative |
| DataValidator.ValidatePopulacao | projeto1-etl-ibge/src/transformers/data_validator.py:54-72 | accepted iff valid; otherwise its violations |
| DataValidator.PopulacaoLaterClock | projeto1-etl-ibge/src/transformers/data_validator.py:66-72 | what is valid now stays valid later |
| DataValidator.ValidatePib | projeto1-etl-ibge/src/transformers/data_validator.py:75-85 | accepted iff the year is in range, with any value |
| DataValidator.PopulacaoStricterThanPib | projeto1-etl-ibge/src/transformers/data_validator.py:54-85 | valid population implies a valid GDP year; a negative value separates them |
| DataValidator.SplitCount | projeto1-etl-ibge/src/transformers/data_validator.py:107-114 | every record lands in exactly one list |
| DataValidator.SplitAppend | projeto1-etl-ibge/src/transformers/data_validator.py:107-114 | order of both lists follows the input |
| DataValidator.SplitAccepted | projeto1-etl-ibge/src/transformers/data_validator.py:109-110 | every valid output is the validation of an input |
| DataValidator.SplitRejected | projeto1-etl-ibge/src/transformers/data_validator.py:111-112 | every rejection carries its input and its errors |
| DataValidator.SplitComplete | projeto1-etl-ibge/src/transformers/data_validator.py:107-112 | every input is accepted or rejected as its validation says |
| DataValidator.SplitEstablishes | projeto1-etl-ibge/src/transformers/data_validator.py:107-114 | what validation guarantees holds of every accepted record |
| DataValidator.Partition | projeto1-etl-ibge/src/transformers/data_validator.py:104-114 | the loop builds the specified split |
| DataValidator.ValidateRegioes | projeto1-etl-ibge/src/transformers/data_validator.py:97-114 | the split; all inputs accounted for; an input is accepted iff valid, and every rejection carries its record and that record's violations |
| DataValidator.ValidateEstados | projeto1-etl-ibge/src/transformers/data_validator.py:117-134 | the split; every valid input is accepted with its sigla upper-cased, every accepted state is valid with no lower-case letter, and every rejection carries its record and violations |
| DataValidator.ValidateMunicipios | projeto1-etl-ibge/src/transformers/data_validator.py:137-154 | the split; an input is accepted iff valid, and every rejection carries its record and violations |
| DataValidator.ValidatePopulacaoRecords | projeto1-etl-ibge/src/transformers/data_validator.py:157-174 | the split; an input is accepted iff valid for the current year, and every rejection carries its record and violations |
| DataValidator.ValidatePibRecords | projeto1-etl-ibge/src/transformers/data_validator.py:177-194 | the split; an input is accepted iff its year is in range; every rejection carries its record and reports the year |

## Left out

- The regular expressions (`PATTERNS`) are not modelled. The scanner takes one matcher as a parameter: given a PII type and a text, it says whether the type's pattern occurs. Keyword matching on column names is modelled exactly (substring test).
- PiiScanner.PatternMatchFacts: the count is estimated with exact rational arithmetic. Python's `int(ratio * n)` on floats can be one smaller. The percentage is kept as an exact real and not rounded to two decimals.
- Only ASCII letters and digits are modelled, for `lower`, `upper`, `isupper`, `\D` and `strip`.
- Scan timestamp and duration (clock readings) are left out of the scan result.
- `hashlib` is a parameter: a function returning a lower-case hex digest of the algorithm's length.
- `Faker` is a parameter: it gives the n-th draw of a generator.
- `pd.cut` is a parameter: it gives the cut column.
- Numpy noise is a parameter: it gives the noised column for the n-th draw.
- Floating-point values of cells are not modelled: numeric cells are integers.
- The year generalisation of dates gives back the year cell directly, not a calendar computation.
- The noise distribution: the `method` keyword cannot reach `_add_noise_column`, because `anonymize_column` takes `method` itself. The distribution is therefore always the default.
- Anonymizer.TokensInjective: is proved only below 10^8 issued tokens. Past that, with different prefixes, two texts can get the same token.
- Anonymizer.Bind: keyword arguments of the wrong type are refused up front. Python would fail later, or sometimes succeed by duck typing.
- A plain string passed instead of an `AnonymizationMethod` member is modelled as an unknown method. The member values are modelled as their strings. In Python a plain string equal to a member value ("tokenize") finds its technique, because the enum derives from `str`. The technique runs, and may grow the token vault or counter. Then `method.value` raises `AttributeError` at data_anonymizer.py:131.
- The frequency grouping breaks ties between equally frequent values in first-appearance order. `value_counts()` is not guaranteed to do so.
- Log messages (salt warnings in non-strict mode, skipped configuration entries) are left out.
- SidraParser.ParseSidraResponse: returns the record list, not a pandas `DataFrame`. The union of columns and the NaN fill of missing `classif_` columns are not modelled.
- JSON objects are lists of entries. A response with duplicate keys is not collapsed the way Python's `dict` would collapse it.
- A `null` where the parser expects an object (`resultados`, `nivel`, `serie`) would raise `AttributeError`/`TypeError` in Python. The model's typed response cannot hold such values.
- Python's `float()` on strings is a parameter. The model accepts every JSON number as its exact value. For an integer too large for a float, Python's `float(valor)` raises `OverflowError` (sidra_parser.py:170-171). The handler at sidra_parser.py:183 catches only `ValueError`, `AttributeError` and `TypeError`, so that error would leave the parser; the model does not raise it.
- `int(ano)` is modelled for ASCII digits with an optional sign and blanks. Underscores and non-ASCII digits are not accepted.
- Pydantic's type coercion and missing-field errors are not modelled: records are typed. The error text of a rejection is modelled as the list of violating fields, in declaration order.
- NaN and infinite values of `valor` are not modelled: values are exact reals.
- `datetime.now().year` is the parameter `currentYear`.
- `validate_config`, I/O, dashboards and the machine-learning parts of the repository are not part of this model.
