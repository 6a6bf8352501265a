# Arxignis CLI: input-shaping core

The Arxignis CLI (`main.ts`, a Deno program) manages sites on the Arxignis
WAF/CDN control plane. Almost all of it is prompts, HTTP calls, a key-value
token store and process exits. This project models the pure decisions the
CLI takes before any of that I/O:

- `validateDomain` checks three things, in order: the length is in [3, 253]; the name contains a `.`; the first label is well formed.
- `validateUrl` strips one leading `http://` or `https://`, then accepts a host-like name or a dotted quad. There is no octet range check.
- `generateConfig` builds the default configuration document (`plainConfig`) with its `target` replaced. The model covers the record it builds, not the YAML text.
- `init` writes the generated document to `configs/<domain>.yaml`.
- `httpRequest` sends no body for `GET`, `DELETE` and `HEAD`.
- `fetchSites` chooses between the list URL and the per-domain URL. It wraps a single-object response in a one-element list.
- `renderSitesTable` makes one five-cell row per site, or shows a notice when the list is empty.

Modules:

- `Text` (text.dfy) models the string built-ins the code relies on: the ASCII regex classes, the anchored, non-global scheme `replace`, and `split`. It proves that split and join are inverses.
- `Validators` (validators.dfy) holds the two validators and the empty-answer checks of the `init` prompts.
- `SiteConfig` (site_config.dfy) holds the configuration document, the template, `generateConfig` and the config path.
- `Requests` (requests.dfy) holds the body rule, the sites URL and the response normalisation. `Json` (json.dfy) is the decoded response value.
- `SitesTable` (sites_table.dfy) holds the `Site` record and the table rows.
- `Wrappers` (wrappers.dfy) holds `Option` and `Result`.

Facts about the code that the proofs establish:

- The hostname regex of `validateUrl` already matches every dotted quad (`DottedQuadIsHostLike`). So the IPv4 alternative never changes the verdict: `validateUrl` accepts exactly the values whose remainder is host-like.
- Only one scheme is stripped. So `validateUrl("http://" + s)` equals `validateUrl(s)` when `s` does not itself start with a scheme (`UrlSchemeIrrelevant`). Once `s` carries a scheme the verdicts can differ: `http://http://a.com` is rejected although `http://a.com` is accepted (`UrlDoubleSchemeRejected`).
- Only the first label is checked. So `a.-` is accepted, and so is `a./../x`. An accepted domain may therefore hold `/` and `..` segments, and the file `init` writes is not confined to a name directly under `configs/`: `configs/a./../x.yaml` names `configs/x.yaml` once `configs/a.` exists (`AcceptedDomainMayHoldPathSegments`).
- A short dotless string such as `ab` gets the length reason, not the TLD reason, because the length is checked first (`ValidateDomain`).

One fact about the code that is outside the model: the guard `if (!token)` (main.ts:225) never fires, because `kv.get` always returns an entry object. The model makes no claim that a missing token aborts.

## Model

| member | source | states |
|---|---|---|
| Text.StripScheme | main.ts:38 | a leading `https://` or `http://` is removed, and only one; any other input is returned unchanged |
| Text.StripSchemeOnce | main.ts:64 | `http://` + s and `https://` + s both strip to exactly s, whatever s holds |
| Text.StripSchemeNotIdempotent | main.ts:38 | `https://http://a` strips to `http://a`; a second pass is needed to reach `a` |
| Text.Split | main.ts:52 | `split('.')` returns at least one part, and no part contains the separator; the first part is the text before the first separator; there are two or more parts exactly when the separator occurs |
| Text.SplitJoin | main.ts:52 | splitting the join of separator-free parts gives those parts back |
| Text.JoinSplit | main.ts:52 | joining the parts of a split gives the original string back |
| Validators.IsFirstLabel | main.ts:57 | the label regex: a label that matches has 1 to 63 characters, is alphanumeric at both ends and holds only alphanumerics and `-` |
| Validators.ValidateDomain | main.ts:48-61 | the length reason is returned exactly when the length is outside [3, 253]; the TLD reason exactly when the length is fine and there is no `.`; any rejection carries one of the three fixed reasons |
| Validators.DomainAcceptedIff | main.ts:52-60 | `true` exactly when the length is in [3, 253] and the text before the first `.` is a label of 1 to 63 characters, alphanumeric at both ends and alphanumeric or `-` inside; later labels are never inspected |
| Validators.AcceptedAt | main.ts:56-60 | a name of valid length whose text before the first `.` is a valid label is accepted |
| Validators.DomainAcceptExamples | main.ts:56-60 | `a.com`, `my-site.example.org` and `a.-` are accepted |
| Validators.DomainRejectExamples | main.ts:49-59 | `-bad.com` gets the label reason, `ab` the length reason, `abc` the TLD reason |
| Validators.IsHostLike | main.ts:66 | the hostname regex: a match has at least two characters, is alphanumeric at both ends and holds only alphanumerics, `-`, `_` and `.`, so never a space, `!`, `:` or `/` |
| Validators.HostPatternIff | main.ts:66 | the hostname regex, read piece by piece with its repeated `.`-group, matches exactly the strings of two or more characters that are alphanumeric at both ends and alphanumeric, `-`, `_` or `.` inside |
| Validators.IsDottedQuad | main.ts:67 | the IPv4 regex: a match starts with a digit and contains a `.`, so it never starts with a scheme |
| Validators.DottedQuadOfGroups | main.ts:67 | any four 1-3 digit groups joined by `.` match the IPv4 regex |
| Validators.DottedQuadShape | main.ts:67 | every string that matches the IPv4 regex is four digit groups joined by `.` |
| Validators.DottedQuadIsHostLike | main.ts:66-67 | every dotted quad also matches the hostname regex |
| Validators.ValidateUrl | main.ts:63-71 | accepts exactly when the value minus one scheme is host-like; every rejection carries the single fixed reason |
| Validators.UrlJudgesRemainder | main.ts:64 | `http://` + s and `https://` + s are accepted exactly when s, as written, is host-like |
| Validators.UrlSchemeIrrelevant | main.ts:64 | for s without a scheme of its own, adding `http://` or `https://` does not change the verdict |
| Validators.UrlDoubleSchemeRejected | main.ts:64-70 | `http://a.com` is accepted and `http://http://a.com` is rejected |
| Validators.UrlAcceptsAnyQuad | main.ts:67-68 | any four 1-3 digit groups joined by `.` are a dotted quad and are accepted, with no octet range check |
| Validators.UrlAcceptExamples | main.ts:64-68 | `999.999.999.999`, `192.168.1.1` and `https://example.com` are accepted |
| Validators.UrlRejects | main.ts:66-70 | a remainder shorter than two characters, or a space or `!` anywhere, gives the fixed reason |
| Validators.UrlRejectExamples | main.ts:66-70 | `not a domain!`, `https://` and `a` are rejected |
| Validators.CheckDomainAnswer | main.ts:279-284 | the domain prompt refuses an empty answer with its own reason and otherwise returns `validateDomain`'s verdict |
| Validators.CheckTargetAnswer | main.ts:289-294 | the target prompt refuses an empty answer with its own reason and otherwise returns `validateUrl`'s verdict |
| Validators.PromptsAcceptWhatValidatorsAccept | main.ts:279-294 | the prompts accept exactly the answers the validators accept; the empty-answer check changes only the message |
| SiteConfig.PlainConfigDefaults | main.ts:16-32 | the template `plainConfig`: redirects, HSTS and URL normalisation off, target `placeholder`, SSL `flexible`, every rule list and both header lists empty |
| SiteConfig.GenerateConfig | main.ts:37-42 | every field except `target` equals the template; `target` is the input with at most one leading scheme removed |
| SiteConfig.GenerateConfigDependsOnlyOnHost | main.ts:38-42 | two inputs give the same document exactly when they agree after one scheme is stripped |
| SiteConfig.GenerateConfigIgnoresScheme | main.ts:38-42 | for a host without a scheme, `http://`host, `https://`host and host give the same document, whose target is host |
| SiteConfig.GenerateConfigExample | main.ts:16-42 | `https://api.example.com` gives target `api.example.com`, and the template's `flexible` SSL mode is kept |
| SiteConfig.GenerateConfigNotIdempotent | main.ts:38 | `https://http://a` gives target `http://a`; generating again from that target gives `a` |
| SiteConfig.ValidatedTargetIsBareHost | main.ts:289-326 | a target that passed `validateUrl` yields a host-like `target` with no `:` or `/`, so no scheme is left in the document |
| SiteConfig.ConfigPath | main.ts:307 | the path is `configs/`, then the domain unchanged, then `.yaml` |
| SiteConfig.DomainOfConfigPath | main.ts:307 | reads the domain back out of a `configs/<domain>.yaml` path |
| SiteConfig.ConfigPathRoundTrip | main.ts:307 | the domain is read back unchanged from its config path |
| SiteConfig.ConfigPathInjective | main.ts:307 | different domains get different config files |
| SiteConfig.AcceptedDomainMayHoldPathSegments | main.ts:279-307 | `a./../x` passes `validateDomain`, and its config path is `configs/a./../x.yaml`, which holds `/` and `..` segments |
| Requests.IsBodylessMethod | main.ts:75 | the three method names compared exactly; only upper-case spellings are bodiless |
| Requests.BuildFetchInit | main.ts:75-86 | method and headers are passed through unchanged; the body is dropped exactly for `GET`, `DELETE` and `HEAD`, and is passed unchanged otherwise |
| Requests.BodyRuleExamples | main.ts:75-86 | `GET`, `HEAD` and `DELETE` send no body; `POST` and lower-case `get` send theirs, because the comparison is exact |
| Requests.SitesUrl | main.ts:136-138 | `<api>/v1/sites/<domain>` for a non-empty domain; `<api>/v1/sites` for a missing or empty one |
| Requests.RequestedDomain | main.ts:136-138 | reads the requested domain, if any, back out of a sites URL |
| Requests.SitesUrlRoundTrip | main.ts:136-138 | the sites URL names exactly the given non-empty domain, and no domain otherwise |
| Requests.SitesUrlDistinguishesDomains | main.ts:136-138 | distinct domains are fetched at distinct URLs, never at the list URL |
| Requests.NormalizeSites | main.ts:149-157 | an array is returned as it is; any other object is wrapped in a one-element list; `null` and scalars give the fixed error |
| Requests.NormalizeSitesIdempotent | main.ts:149-157 | normalising a normalised list again, as an array, gives it back |
| SitesTable.SiteRow | main.ts:121-127 | a row has as many cells as the header has columns |
| SitesTable.SiteOfRow | main.ts:121-127 | reads a five-cell row back as a site |
| SitesTable.SiteRowRoundTrip | main.ts:121-127 | the row holds id, domain, status, created and updated unmodified, in header order |
| SitesTable.Rows | main.ts:121-127 | one row per site; row i reads back as site i |
| SitesTable.RowsConcat | main.ts:121-127 | rows follow list order: the rows of a concatenation are the concatenated rows |
| SitesTable.RenderSites | main.ts:113-127 | an empty list gives only the "No sites found" notice; a non-empty one gives the five-column header and one unmodified row per site, in order |
| SitesTable.RenderThreeSites | main.ts:118-127 | three sites give the five-column header and exactly their three rows, first to last |

## Left out

- Network I/O is not modelled: `fetch`, `response.json()`, the exit on a non-2xx status in `httpRequest`, `loginTest`, and the `catch` in `fetchSites`. From `httpRequest` only the body rule is kept.
- The request URLs and JSON bodies of `site create`, `url-purge`, `url-purge all` and `settings` are string templates passed straight to the network, so they are not modelled.
- The `Authorization` and `User-Agent` headers are opaque to the model. `BuildFetchInit` takes them as a map and passes them through.
- The token store is foreign persistent storage and is not modelled: `Deno.openKv`, `kv.get` and `kv.set` in `getLoginToken`, `init` and `login`. The unreachable `if (!token)` guard is described above.
- YAML `stringify` and `parse` come from an external library. `GenerateConfig` returns the document record, not its YAML text, and the round trip through a file is not modelled.
- Terminal UI and argument parsing are not modelled: Cliffy prompts (including the 44-character limit of the token prompt), the command dispatcher, and the `Table` widths, padding, indent and borders.
- Filesystem and process effects are not modelled: `Deno.mkdir`, `Deno.stat`, the overwrite prompt, `Deno.writeTextFile`, `Deno.readTextFile`, `Deno.Command('open')`, `Deno.exit`, the printed follow-up commands, and the error-class dispatch in `init` and `settings`.
- Environment-variable defaults (`CLI_API_URL`, `CLI_SIGNUP_URL`, `HOME`) are ambient configuration. The API base URL is a parameter of `SitesUrl`.
- ValidateDomain: lengths count Dafny characters, while JavaScript's `length` counts UTF-16 code units. The two agree for characters in the Basic Multilingual Plane. A character outside it counts twice in JavaScript, so only the length bounds can differ for it, because every regex class here is ASCII.
- RenderSites: `renderSitesTable`'s `Array.isArray` guard is absent, because the input is already a sequence. The unchecked `as Site` cast from a decoded JSON value to a `Site` is not modelled, so `NormalizeSites` and `RenderSites` are not chained.
- NormalizeSites: JSON numbers are kept as real numbers. The model does not capture the binary floating-point format.
