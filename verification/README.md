# ccs core, modelled in Dafny

This project models the pure core of `ccs`, a command-line switcher between
API-provider profiles for Claude Code. There are three parts.

- **Provider store** (`provider.dfy`, `store.dfy`): the `Provider` record and
  its defaulting rule `FillDefaults`. Also the `Config` store: the current
  alias plus an ordered sequence of providers, with lookup, add, update,
  remove and set-current. The Go methods mutate the store and return an
  error. Here each mutating operation returns an `Outcome`, which holds the
  store afterwards and a status. So "an error leaves the store unchanged" is
  part of each contract.
- **Claude settings document** (`jsonc.dfy`, `settings.dfy`):
  - the JSONC cleaner `stripJSONComments`;
  - the operations on the `env` object: `ApplyProvider`,
    `ClearProviderSettings` and `GetCurrentEnvConfig`;
  - the split of the top-level object into six known fields and
    `AdditionalFields` (`LoadSettings`);
  - the output map built by `Save`.

  JSON values are a `JsonValue` datatype, and `env` is a
  `map<string, JsonValue>`.
- **API-key masking** (`mask.dfy`): `maskAPIKey`.

`results.dfy` holds `Option`/`Result`. `decimal.dfy` holds `strconv.Itoa`
and a parser that inverts it.

Modelling choices:
- Go's `int` is an unbounded `int`. The model never does arithmetic on the
  timeout. It only compares the timeout with zero and prints it.
- Strings in the cleaner are sequences of characters, while Go works on
  bytes. For valid UTF-8 text the two agree:
  - the comment markers, quotes, backslashes, commas, closers and the
    characters of `\s` are one-byte ASCII characters;
  - `strings.TrimSpace` decodes UTF-8 runes and tests each one with
    `unicode.IsSpace`, whose multi-byte members (U+0085, U+00A0,
    U+2000-U+200A, U+3000, ...) the model lists as characters.

  The key mask works on bytes (`seq<byte>`), because `len` and slicing in Go
  count bytes.
- `strings.TrimSpace(s) == ""` is modelled as "every character satisfies
  `unicode.IsSpace`". The RE2 class `\s` is `[\t\n\f\r ]`.
- The regexp replacement is modelled twice:
  - an index-level definition, which deletes each comma followed by `\s*`
    and then `}` or `]`;
  - a method that scans the way `ReplaceAllString` does.

  The two are proved equal.
- The source keeps the five model keys of `ApplyProvider` in a Go map, so it
  visits them in no fixed order. The model visits them in a fixed sequence,
  and a lemma proves that any other order gives the same result.
- `strconv.FormatFloat` is a function parameter (`formatFloat`) of the env
  summary. A parsed JSON number is a Go `float64`; the model keeps it
  opaque (`JFloat`). A `JInt` appears only where `ApplyProvider` writes the
  int `1`.

In these places the model follows the code, which a reader might not expect:
- `FillDefaults` returns early when `Model` is empty. So the 300000 ms
  timeout default applies only when a main model is set; a provider without
  a model keeps a zero timeout.
- `GetCurrentEnvConfig` shows a value of an unsupported type as `""`. It does
  not leave the key out.
- `Save` writes no `.bak` backup; no backup code exists.
- The trailing-comma pass also changes commas inside string literals.
  `{"k": "a,]"}` becomes `{"k": "a]"}`.
- `ErrInvalidAlias` is declared but never returned, so empty aliases are
  accepted. The store does not check aliases for uniqueness when it is
  built; only the operations keep them distinct.

## Model

| member | source | states |
|---|---|---|
| `Decimal.Itoa` | internal/claude/settings.go:195-197 | the timeout string is digits, with a leading '-' exactly for a negative number, and with no leading zero unless it is the single digit `0` |
| `Decimal.ItoaRoundTrip` | internal/claude/settings.go:195-197 | the decimal string written for a timeout reads back as the same integer |
| `Decimal.ItoaInjective` | internal/claude/settings.go:256-257 | different integers are shown as different strings |
| `Providers.FillDefaults` | internal/config/provider.go:18-37 | name, alias, URL, key and model never change; without a model the provider is returned unchanged, zero timeout included; with a model, each empty role model becomes the model and a set one is kept; a zero timeout becomes 300000, and any non-zero timeout, negative included, is kept |
| `Providers.FillDefaultsFixedPoints` | internal/config/provider.go:18-37 | FillDefaults leaves p unchanged iff p has no model, or has all four role models and a non-zero timeout; its result always has that property |
| `Providers.FillDefaultsIdempotent` | internal/config/provider.go:18-37 | defaulting twice is the same as defaulting once |
| `ProviderStore.FindAlias` | internal/config/config.go:107-111 | the scan finds an alias iff some provider has it, and it returns the first such position |
| `ProviderStore.GetProvider` | internal/config/config.go:106-113 | succeeds iff the alias is present, returning the provider at its first position; otherwise ProviderNotFound |
| `ProviderStore.GetCurrentProvider` | internal/config/config.go:116-121 | an empty current alias gives NoProviders; otherwise the lookup of the current alias, so a dangling one gives ProviderNotFound |
| `ProviderStore.AddProvider` | internal/config/config.go:124-134 | a taken alias gives ProviderExists and an unchanged store; otherwise one more entry, the last being the defaulted provider, earlier entries and current alias unchanged |
| `ProviderStore.UpdateProvider` | internal/config/config.go:137-156 | an absent alias gives ProviderNotFound; a rename onto an alias held by a different entry gives ProviderExists, store unchanged; otherwise the same length, only the first match replaced by the defaulted provider; the current alias changes iff it was renamed and equalled the old alias, and then it becomes the new alias |
| `ProviderStore.RemoveProvider` | internal/config/config.go:159-170 | an absent alias gives ProviderNotFound, store unchanged; otherwise the first match is cut out, the others keep their order, and the current alias is cleared iff it equalled the removed alias |
| `ProviderStore.SetCurrentProvider` | internal/config/config.go:173-180 | an absent alias gives ProviderNotFound, store unchanged; otherwise only the current alias changes, to exactly the alias given |
| `ProviderStore.AddThenGet` | internal/config/config.go:124-134 | after adding a provider under a fresh alias, looking up that alias returns the defaulted provider |
| `ProviderStore.AddKeepsAliasesDistinct` | internal/config/config.go:124-134 | adding keeps distinct aliases distinct |
| `ProviderStore.UpdateKeepsAliasesDistinct` | internal/config/config.go:137-156 | updating, renames included, keeps distinct aliases distinct |
| `ProviderStore.RemoveKeepsAliasesDistinct` | internal/config/config.go:159-170 | removing keeps distinct aliases distinct |
| `ProviderStore.UpdateThenGet` | internal/config/config.go:137-156 | with distinct aliases, after a successful update the new alias looks up the defaulted replacement, and a renamed-away alias is no longer found |
| `ProviderStore.RemoveCurrentClearsPointer` | internal/config/config.go:159-170 | removing a present alias succeeds, shortens the list by one, and clears the current alias only when it named the removed provider |
| `ProviderStore.SetThenGetCurrent` | internal/config/config.go:173-180 | after setting a present non-empty alias as current, the current provider resolves to that alias's provider |
| `Jsonc.Index` | internal/claude/settings.go:36 | strings.Index: a position where the pattern occurs and where no earlier position has it; no result only when the pattern occurs nowhere |
| `Jsonc.EscapedQuotesAtMostQuotes` | internal/claude/settings.go:39 | the count of `\"` never exceeds the count of `"`, so the quote balance tested for evenness is never negative |
| `Jsonc.CutComment` | internal/claude/settings.go:36-44 | the result is a prefix of the line; it is shorter iff the marker occurs and the quote balance before its first occurrence is even; then it ends exactly at that first occurrence |
| `Jsonc.StripLine` | internal/claude/settings.go:35-53 | the `//` search runs on what the `#` cut left: that text is shortened iff `//` occurs in it with an even quote balance before its first occurrence, and then it ends exactly at that occurrence; the result is a prefix of the line |
| `Jsonc.CleanLinesKeepsOrder` | internal/claude/settings.go:32-61 | the kept lines are, in source order, the stripped forms of exactly the lines that did not become blank from being non-blank |
| `Jsonc.BlankLinesSurvive` | internal/claude/settings.go:55-59 | a line that was blank to begin with is never dropped |
| `Jsonc.SplitJoinRoundTrip` | internal/claude/settings.go:29 | splitting on newlines gives newline-free lines that join back to the text |
| `Jsonc.JoinSplitRoundTrip` | internal/claude/settings.go:64 | joining a non-empty list of newline-free lines and splitting again gives the same lines |
| `Jsonc.ReplaceTrailingCommas` | internal/claude/settings.go:66-68 | the left-to-right regexp replacement deletes exactly the commas followed by `\s*` and a `}` or `]`, string literals included |
| `Jsonc.DropOnlyDeletesCommas` | internal/claude/settings.go:66-68 | the comma pass never lengthens the text, and it keeps the count of every character other than the comma |
| `Jsonc.DropNothingToDrop` | internal/claude/settings.go:66-68 | a text with no matched comma passes through unchanged |
| `Jsonc.StripJsonComments` | internal/claude/settings.go:27-71 | the source's line loop followed by the regexp pass computes the staged cleaning: split, clean lines, join, drop trailing commas |
| `Jsonc.TrailingCommaExample` | internal/claude/settings.go:66-68 | `{"a":1,` newline `}` becomes `{"a":1` newline `}` |
| `Jsonc.SinglePassExample` | internal/claude/settings.go:66-68 | the pass is not repeated: `,,}` becomes `,}` |
| `Jsonc.HashInsideStringExample` | internal/claude/settings.go:36-44 | a `#` after one quote is inside a string, so the line is kept whole |
| `Jsonc.HashCommentExample` | internal/claude/settings.go:36-44 | a `#` after two quotes starts a comment, and the line is cut before it |
| `Settings.ApplyModelFields` | internal/claude/settings.go:210-215 | after the delete-then-set loop, each listed key is present iff its value is non-empty, and then holds it; every other key is untouched |
| `Settings.ApplyProvider` | internal/claude/settings.go:184-219 | URL and token set; timeout present iff positive, as its decimal string; each of the five model keys present iff its field is non-empty, with that value; the traffic flag is the int 1; every unmanaged key keeps its presence and value |
| `Settings.ClearProviderSettings` | internal/claude/settings.go:222-232 | exactly the nine managed keys are removed; every other key keeps its value |
| `Settings.GetCurrentEnvConfig` | internal/claude/settings.go:235-265 | keys are exactly the eight managed value keys present in env, never the traffic flag; strings pass through, ints are in decimal, floats go through the formatter, anything else shows as "" |
| `Settings.LoadSettings` | internal/claude/settings.go:100-129 | null gives the empty settings; a non-object gives NotAnObject; an object loads iff every known member has the right type; additional fields are exactly the non-known members, unchanged; the six fields are what the decoders make of their members |
| `Settings.DecodeString` | internal/claude/settings.go:111 | a JSON string decodes to itself and `null` (or a missing member) to ""; every other value is FieldTypeMismatch |
| `Settings.DecodeBool` | internal/claude/settings.go:111 | a JSON bool decodes to a set `*bool` and `null` to nil; every other value is FieldTypeMismatch |
| `Settings.DecodeObject` | internal/claude/settings.go:111 | a JSON object decodes to its members and `null` to an empty map; every other value is FieldTypeMismatch |
| `Settings.DecodeStringItems` | internal/claude/settings.go:111 | the elements of a `[]string` decode iff each is a string or `null`; the result has the same length, with each string kept and each `null` left as ""; otherwise FieldTypeMismatch |
| `Settings.DecodeStrings` | internal/claude/settings.go:111 | `null` decodes to an empty list, an array to its decoded elements, and every other value is FieldTypeMismatch |
| `Settings.KnownOutput` | internal/claude/settings.go:147-168 | each known field is written iff it is non-empty (non-nil for the bool), and holds the field's value |
| `Settings.SaveOutput` | internal/claude/settings.go:147-173 | every additional field is written unchanged; nothing outside the known and additional keys is written; a known key not among the additional fields is as the known part has it |
| `Settings.ApplyDependsOnUnmanagedOnly` | internal/claude/settings.go:184-219 | envs that agree outside the managed keys give the same result |
| `Settings.ApplyAfterClear` | internal/claude/settings.go:184-232 | clearing and then applying gives the same env as applying alone |
| `Settings.ApplyIdempotent` | internal/claude/settings.go:184-219 | applying the same provider twice gives the same env as applying it once |
| `Settings.ClearUndoesApply` | internal/claude/settings.go:184-232 | clearing after applying gives the same env as clearing alone, and clearing is idempotent |
| `Settings.ModelLoopOrderIrrelevant` | internal/claude/settings.go:202-215 | the model-key loop gives the same env in any visiting order of the same pairs |
| `Settings.SummaryAfterApply` | internal/claude/settings.go:184-265 | after applying, the summary shows the provider's URL, token, timeout when positive, and main model when set |
| `Settings.SummaryAfterClear` | internal/claude/settings.go:222-265 | after clearing, the summary is empty |
| `Settings.BareProviderKeys` | internal/claude/settings.go:184-219 | a provider with no timeout and no models leaves the foreign keys and exactly the URL, token and traffic keys |
| `Settings.TimeoutExample` | internal/claude/settings.go:195-197 | a 5000 ms timeout is written as "5000" |
| `Settings.UnknownFieldsSurvive` | internal/claude/settings.go:116-125 | every member outside the six known fields keeps its presence and value through load and save |
| `Settings.LoadSaveRoundTrip` | internal/claude/settings.go:116-173 | load followed by save gives back the document whenever every known member is non-empty and well-typed, with no `null` in the directory list |
| `Settings.RoundTripOnlyWhenCanonical` | internal/claude/settings.go:116-173 | a document that load followed by save gives back has only non-empty, well-typed known members, with no `null` in the directory list |
| `Settings.EmptyEnvDropped` | internal/claude/settings.go:157-159 | an empty env is left out of the saved document |
| `Settings.SwitchKeepsForeignSettings` | internal/claude/settings.go:116-232 | after load, clear, apply and save, members outside the known six are unchanged, and so is every unmanaged env variable |
| `Masking.MaskApiKey` | cmd/list.go:82-87 | same length as the key; all '*' up to 8 bytes; above that, the first and last 4 bytes are kept and the len-8 bytes between are '*' |
| `Masking.MaskRevealsOnlyEnds` | cmd/list.go:82-87 | keys of equal length that agree on their first and last four bytes (when longer than 8) get the same mask |
| `Masking.MaskIdempotent` | cmd/list.go:82-87 | masking a mask changes nothing |

## Left out

- File and OS plumbing is not modelled: `Load`/`Save` reads and writes, `MkdirAll`, `GetConfigDir` (it depends on the OS and on `APPDATA`), `GetConfigPath` and `GetSettingsPath`. So are the file-missing branch of `LoadSettings` (its result is `EmptySettings`) and every I/O error.
- JSON text encoding and decoding (`encoding/json`) is not modelled. The model starts from an already-parsed value, and known fields are matched by exact key. Go also matches struct fields case-insensitively (a `"Model"` member would fill `Model` as well); that is not modelled. Duplicate keys and the order of keys in the output are not modelled either.
- Settings.LoadSettings: when several known members have the wrong type, Go reports the earliest one in the document. The model reports a single `FieldTypeMismatch` with no position, because a parsed object has no member order.
- ProviderStore.GetProvider: returns the provider as a value, not a pointer into the store's array as `&c.Providers[i]` does. So the in-place shift of `RemoveProvider` (`append(c.Providers[:i], c.Providers[i+1:]...)`) is not modelled. In Go, a pointer taken before a remove names the next provider afterwards. `cmd/remove.go` takes such a pointer, removes the provider and then prints `provider.Name`, so the message can show the next provider's name. The command files are outside this model.
- Settings text that is not valid UTF-8 is outside the model. Go's `string(data)` keeps such bytes, and `TrimSpace` reads each invalid byte as U+FFFD; a sequence of characters cannot hold them.
- `strconv.FormatFloat` is a parameter, not a definition, because float64 formatting is outside the model.
- The command files (`cmd/add.go`, `cmd/edit.go`, `cmd/use.go`, `cmd/remove.go`, `cmd/current.go`, `cmd/root.go`) are interactive prompts, coloured output and command wiring. The fixed `****` token display in `cmd/current.go` is a different function from `maskAPIKey` and is not modelled.
- `internal/i18n/i18n.go` (translation tables) is not part of this model. Neither is `cmd/lang.go`: it refers to a `Language` field that `Config` does not have, and no command registers it.
- There is no locking and no backup file in the code, so neither is modelled.
