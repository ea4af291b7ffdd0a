# Shopify discount automation: verified model of the list and string logic

The system turns a store operator's natural-language discount request into a Shopify discount
and emails the announcement to a stored recipient list. Around the language-model call, the
Shopify REST calls and the Mailjet send, three pieces of sequential logic are modelled here:

- **Recipient store** (`RecipientStore`, `recipient_store.dfy`): the `recipients` field of the
  JSON document as a value (`Field`: missing, an array, or some other JSON value), held by the
  class `EmailsFile`, whose methods are the list, add and delete handlers. A file write is the
  replacement of that field.
- **Command handler** (`Command`, `command.dfy`): the rule title, the choice between the
  automatic and the code path, the request passed to either path, the subject and HTML body
  of the announcement, and the sequencing parse → create → send with its replies.
- **Discount creation** (`ShopifyService`, `shopify_service.dfy`): discount-value parsing, the
  `value` string, the fixed price-rule payload, the code derived from the title, and the
  ordered two-step create (rule, then code linked to the returned rule id).
- **Recipient panel** (`EmailManager`, `email_manager.dfy`): the case-insensitive search filter,
  the first-five page, the "Show More (n more)" / "Show Less" toggle and the component's
  handlers, as the class `Manager` over the component's state.

Shared helpers: `Wrappers` (Option, Result), `Sequences` (order-preserving `Filter`,
`IsSubsequence`), `Text` (JavaScript white space, trimming, ASCII case mapping, `includes`,
decimal digits).

External services are parameters. The parser's reply, the creation procedure's answer, the
platform's answers to the price-rule and discount-code requests, the mail outcome and the
server's replies to the client are inputs; the handlers return the calls they make.

## Model

| member | source | states |
|---|---|---|
| RecipientStore.ListReply | server/src/index.ts:33 | a truthy stored value (every array included) is returned as it is, a falsy or absent one as `[]`; the reply is always truthy |
| RecipientStore.EmailsFile.List | server/src/index.ts:29-37 | the list handler replies `recipients`, or `[]` when the field is absent, and changes nothing |
| RecipientStore.Repaired | server/src/index.ts:49-51 | the add handler works on the stored array, or on `[]` when the field is not an array |
| RecipientStore.Added | server/src/index.ts:49-54 | the added list holds the address, keeps the repaired list as its prefix, grows by at most one, and is unchanged exactly when the address was present, else ends with it |
| RecipientStore.AddIdempotent | server/src/index.ts:53-58 | adding an address a second time changes nothing |
| RecipientStore.AddToMalformed | server/src/index.ts:49-54 | a non-array field becomes exactly `[email]` |
| RecipientStore.AddKeepsUnique | server/src/index.ts:53-54 | add keeps a duplicate-free list duplicate-free |
| RecipientStore.AddTwiceOnce | server/src/index.ts:53-58 | an absent address added twice occurs exactly once |
| RecipientStore.EmailsFile.Add | server/src/index.ts:40-62 | a missing or empty email gives 400 and no write; otherwise the reply is the added list, the file is written exactly when the address was absent, and then holds the added list |
| RecipientStore.Without | server/src/index.ts:75 | the deleted address no longer occurs, every other stored address still does, and the list does not grow |
| RecipientStore.WithoutKeepsOthers | server/src/index.ts:75-77 | delete yields a subsequence of the list that keeps every other address with all its occurrences |
| RecipientStore.WithoutAbsent | server/src/index.ts:75-77 | deleting an absent address returns the list unchanged |
| RecipientStore.DeleteUndoesAdd | server/src/index.ts:53-75 | deleting an address just added to a list without it gives back the list |
| RecipientStore.EmailsFile.Delete | server/src/index.ts:65-82 | a non-array field gives 500 and no write; otherwise the file is rewritten with the filtered list, which is the reply |
| Command.Title | server/src/index.ts:153 | the title is `Discount for ` followed by the product |
| Command.TitleInjective | server/src/index.ts:153 | different products give different titles |
| Command.TitleCode | server/src/index.ts:153 | for a one-word product the derived code is `DISCOUNT-FOR-` and the upper-cased product |
| Command.ChooseBranch | server/src/index.ts:156-172 | the automatic path is chosen exactly when `discountType` is `"automatic"`; any other value, absent included, chooses the code path |
| Command.RequestFor | server/src/index.ts:157-171 | the request carries the title, discount and dates; a collection only when one is present |
| Command.CreateCall | server/src/index.ts:156-172 | the creation call is the automatic one exactly on the automatic path, with the request unchanged |
| Command.Subject | server/src/index.ts:175 | the subject starts with the discount and contains the product |
| Command.PaymentLine | server/src/index.ts:181-185 | the sentence is the code line for the result's code when the type is `"code"` and the result carries a code, and the auto-apply sentence exactly otherwise |
| Command.CodeLine | server/src/index.ts:183 | the code sentence names the code and is never the auto-apply sentence |
| Command.CollectionLine | server/src/index.ts:186-190 | the collection paragraph is empty exactly when no collection is present, and otherwise names it |
| Command.BodyWithShows | server/src/index.ts:176-194 | the body contains its payment sentence and, when present, the collection paragraph |
| Command.Body | server/src/index.ts:176-194 | the body as written contains the payment sentence chosen by `discountType === 'code'` and, when present, the collection paragraph |
| Command.BodyShowsCode | server/src/index.ts:181-185 | a `"code"` command whose result has a code announces that code |
| Command.BodyShowsAutoApplied | server/src/index.ts:181-185 | every other command announces that the discount is applied automatically |
| Command.BodyShowsCollection | server/src/index.ts:186-190 | a present collection is named in the body |
| Command.CodePathAnnouncedAsAutomatic | server/src/index.ts:156-185 | with `discountType` absent the code path runs, yet the body says the discount is applied automatically |
| Command.IntendedPaymentLine | server/src/index.ts:181-185 | corrected sentence: the code line whenever the code path returned a code, the auto-apply sentence exactly otherwise |
| Command.IntendedBody | server/src/index.ts:176-194 | the corrected body contains the corrected payment sentence and, when present, the collection paragraph |
| Command.IntendedBodyShowsCode | server/src/index.ts:181-185 | with the corrected body, a code returned on the code path is always announced |
| Command.IntendedBodyAgrees | server/src/index.ts:181-185 | for `discountType` `"code"` or `"automatic"` the corrected body equals the source's body |
| Command.HandleCommand | server/src/index.ts:138-214 | a null parse replies 400 with no calls; else exactly one creation call on the chosen path, then, only if it succeeded, one send with the subject and the body as written (`Command.Body`); failures of either reply 500; success only when both succeed |
| Command.HandleCommandIntended | server/src/index.ts:138-214 | the same calls and replies as the handler, except that the send carries the corrected body (`Command.IntendedBody`) |
| ShopifyService.RemoveFirstPercent | server/src/services/shopifyService.ts:14 | removing a `%` shortens the text by at most one character |
| ShopifyService.RemoveFirstPercentNone | server/src/services/shopifyService.ts:14 | text without `%` is left unchanged |
| ShopifyService.RemoveFirstPercentAt | server/src/services/shopifyService.ts:14 | only the first `%` is removed; text around it, later `%`s included, is kept |
| ShopifyService.DiscountValue | server/src/services/shopifyService.ts:14 | text with no leading digits after the `%` removal and white space parses to 0 |
| ShopifyService.NoDigitsIsZero | server/src/services/shopifyService.ts:14 | a discount text with no digit gives value 0 |
| ShopifyService.PercentRoundTrip | server/src/services/shopifyService.ts:14 | a whole number up to 2^53 (`Number.MAX_SAFE_INTEGER`), written in decimal, with optional leading white space and an optional trailing `%`, parses back to that number |
| ShopifyService.ValueField | server/src/services/shopifyService.ts:24 | the value string is `-` followed by the decimal text of the parsed number: digits that read back as it, with no leading zero except for 0 itself |
| ShopifyService.HyphenateSpaces | server/src/services/shopifyService.ts:50 | the hyphenated text holds no white space and is no longer than the title |
| ShopifyService.HyphenateNoSpace | server/src/services/shopifyService.ts:50 | text without white space is left unchanged |
| ShopifyService.HyphenateRun | server/src/services/shopifyService.ts:50 | a word followed by a maximal white-space run keeps the word and turns the whole run into one hyphen |
| ShopifyService.HyphenateWords | server/src/services/shopifyService.ts:50 | three words separated by single spaces become the words joined by hyphens |
| ShopifyService.DiscountCode | server/src/services/shopifyService.ts:50 | the code holds no white space and no lower-case ASCII letter, and is no longer than the title |
| ShopifyService.DiscountCodeIdempotent | server/src/services/shopifyService.ts:50 | deriving a code from a code changes nothing |
| ShopifyService.PriceRulePayload | server/src/services/shopifyService.ts:17-31 | title passed through; `line_item`, `all`, `across`, `percentage`, customer selection `all`, usage limit 100, once per customer; the value is exactly `ShopifyService.ValueField` of the parsed number |
| ShopifyService.CreateDiscount | server/src/services/shopifyService.ts:12-73 | the rule request goes first; the code request only after the rule succeeded, with its id and the derived code; success exactly when both succeed, returning the echoed code and the rule id; a failure returns that step's error |
| EmailManager.Matches | client/shopify-discount-app/src/componenets/EmailManager.tsx:51 | an empty search matches every address, and no address matches a search longer than itself |
| EmailManager.Filtered | client/shopify-discount-app/src/componenets/EmailManager.tsx:50-52 | an address is kept exactly when its lower-cased form contains the lower-cased search text |
| EmailManager.FilteredIsSubsequence | client/shopify-discount-app/src/componenets/EmailManager.tsx:50-52 | the filtered list is a subsequence of the loaded list |
| EmailManager.FilteredIdempotent | client/shopify-discount-app/src/componenets/EmailManager.tsx:50-52 | filtering the filtered list again with the same search changes nothing |
| EmailManager.EmptySearchKeepsAll | client/shopify-discount-app/src/componenets/EmailManager.tsx:50-52 | an empty search keeps every address |
| EmailManager.SearchCaseInsensitive | client/shopify-discount-app/src/componenets/EmailManager.tsx:50-52 | lower-casing the search text does not change the filtered list |
| EmailManager.Visible | client/shopify-discount-app/src/componenets/EmailManager.tsx:55 | the visible list is a prefix of the filtered list: all of it when expanded, else its first min(5, n) entries |
| EmailManager.ShortListIgnoresShowAll | client/shopify-discount-app/src/componenets/EmailManager.tsx:55 | a list of at most five looks the same expanded or collapsed |
| EmailManager.HiddenCount | client/shopify-discount-app/src/componenets/EmailManager.tsx:112-118 | the "more" count exists exactly when more than five match, and visible plus hidden is the filtered length |
| EmailManager.ToggleLabel | client/shopify-discount-app/src/componenets/EmailManager.tsx:112-118 | the toggle is rendered exactly when more than five match, reads "Show Less" exactly when expanded, and when collapsed shows the decimal text of the hidden count |
| EmailManager.Submission | client/shopify-discount-app/src/componenets/EmailManager.tsx:22-25 | blank input submits nothing; otherwise a non-empty text without surrounding white space, taken from the input |
| EmailManager.SubmissionOf | client/shopify-discount-app/src/componenets/EmailManager.tsx:22-25 | input padded with white space submits exactly the text inside the padding |
| EmailManager.SubmissionStable | client/shopify-discount-app/src/componenets/EmailManager.tsx:22-25 | what the guard lets through would be let through unchanged a second time |
| EmailManager.EmailsOf | client/shopify-discount-app/src/componenets/EmailManager.tsx:14 | a reply's list is taken as it is, and a reply without one gives no addresses |
| EmailManager.Manager.constructor | client/shopify-discount-app/src/componenets/EmailManager.tsx:5-9 | the component starts with no addresses, empty inputs, no error, collapsed |
| EmailManager.Manager.FetchEmails | client/shopify-discount-app/src/componenets/EmailManager.tsx:11-19 | a reply replaces the list (`[]` when it has none); a failure sets the load error |
| EmailManager.Manager.AddEmail | client/shopify-discount-app/src/componenets/EmailManager.tsx:21-32 | posts the submission; blank input changes nothing; a reply replaces the list and clears the input; a failure sets the add error |
| EmailManager.Manager.DeleteEmail | client/shopify-discount-app/src/componenets/EmailManager.tsx:34-41 | the request names the address to remove; a reply replaces the list; a failure sets the delete error |
| EmailManager.Manager.ToggleShowAll | client/shopify-discount-app/src/componenets/EmailManager.tsx:115 | flips `showAll` and nothing else, so the visible list becomes that of the other mode |
| EmailManager.ToggleTwice | client/shopify-discount-app/src/componenets/EmailManager.tsx:115 | clicking the toggle twice restores the visible list |
| Text.Trim | client/shopify-discount-app/src/componenets/EmailManager.tsx:22 | the trimmed text is empty exactly for all-white-space input, and otherwise neither starts nor ends with white space |
| Text.TrimOf | client/shopify-discount-app/src/componenets/EmailManager.tsx:22 | trimming removes exactly the surrounding white space |
| Text.DecimalRoundTrip | server/src/services/shopifyService.ts:24 | reading back the decimal text of a number gives the number |
| Sequences.FilterCounts | server/src/index.ts:75 | filtering keeps every occurrence of a kept value and none of the others |
| Sequences.FilterIsSubsequence | client/shopify-discount-app/src/componenets/EmailManager.tsx:50 | filtering yields a subsequence of its input |

## Findings

| source | as written | input that shows it | evidently intended | confidence | as-written member | corrected member |
|---|---|---|---|---|---|---|
| server/src/index.ts:156-185 | the path is chosen by `discountType === "automatic"`, but the email shows the code only when `discountType === 'code'` | a parsed command without `discountType` (the parser's declared reply, server/src/services/openaiService.ts, has no such field) and a result `{discount_code: "DISCOUNT-FOR-HOODIES"}`: the code path creates a code and the email says the discount is applied automatically | show the code whenever the code path returned one | medium, not executed | Command.CodePathAnnouncedAsAutomatic | Command.IntendedBodyShowsCode |

`Command.HandleCommand` sends the body as written (`Command.Body`); `Command.HandleCommandIntended`
sends the corrected body (`Command.IntendedBody`), and `Command.IntendedBodyAgrees` shows the two
bodies are the same for the two documented types.

## Left out

- Reading and writing the recipient file and `JSON.parse`/`JSON.stringify` (server/src/index.ts:31-76): the file is the in-memory `Field`, always readable, so the 500 replies for I/O failures are not modelled; a write keeps only the `recipients` key, which is all the model holds.
- Non-string request bodies and non-string array entries in the stored document: the model's `email` is an optional string and arrays hold strings.
- The read-modify-write race between concurrent add and delete requests: each handler call is atomic in the model.
- ShopifyService.DiscountValue: reads only an unsigned integer, the leading decimal digits after white space, and reads it exactly; JavaScript `parseFloat` also reads signs, fractions, exponents and `Infinity`, and rounds to a double, so the model matches the program only for values up to 2^53 (`Number.MAX_SAFE_INTEGER`); above that the parsed number is the nearest double, which is floating-point arithmetic and not modelled.
- ShopifyService.ValueField: matches `` `-${discountValue}` `` only for values up to 2^53 (`Number.MAX_SAFE_INTEGER`); above that JavaScript prints the double's shortest round-trip digits padded with zeros (2^64 prints as `18446744073709552000`), and from 10^21 in exponent form; neither is modelled.
- ShopifyService.PercentRoundTrip: holds for every natural number in the model, but describes the program only up to 2^53, for the rounding reason given for `ShopifyService.DiscountValue`.
- `new Date(...).toISOString()` (server/src/services/shopifyService.ts:26-27): `startsAt`/`endsAt` hold the date text, and the exception an invalid date raises before any request is not modelled.
- The Shopify axios POSTs, their URLs and headers: their answers are parameters; the detail of a thrown error is carried as given, without `JSON.stringify`.
- `createShopifyDiscountCode`, `createShopifyAutomaticDiscount`, `fetchCollections` and `fetchDiscounts` are not defined in the shown service file: `Command.HandleCommand` takes the creation result as a parameter, and the collections and discounts endpoints are not modelled.
- The language-model parser (server/src/services/openaiService.ts), the `/api/parse` endpoint, the status probes (server/src/index.ts:222-269) and the Mailjet send are not part of this model; the send's outcome is a parameter and its events are recorded as a `SendEmail` call.
- `sendDiscountEmail(to, subject, html)` is called with two arguments (server/src/index.ts:197): the `SendEmail` call records them in the order passed, called subject and body; how Mailjet treats the shifted arguments is not modelled.
- Text.Lower and Text.Upper: map ASCII letters only; JavaScript also maps non-ASCII letters.
- Rendering, the input `onChange` handlers, `encodeURIComponent` in the delete URL, and the other React views (CommandInput, DiscountPreview, CollectionsList, App) and the stub server/index.js are not part of this model.
- EmailManager.Manager.AddEmail: the reply is applied at once; the asynchronous gap between the post and its answer, in which the input may change, is not modelled. A truthy non-array `emails` in a server reply is not modelled.
