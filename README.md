# tortufridgebot — a Dafny model of the bot's date handling and conversation state

`bot.js` is a Telegram bot that registers a perishable product and puts a reminder in a
Google Calendar two days before the product expires. The user picks manual entry or photos. With
photos, a barcode photo is decoded and looked up in Open Food Facts. Then a photo of the expiration
date is read by an OCR service. When the barcode cannot be read or the product is not found, the
bot asks for the name to be typed, and when no date is found on the photo it asks for the date to be
typed. A failed image download and a date that cannot be turned into a valid Date end in a generic
error, and a calendar error keeps the product and the state of the chat as they were.

This project models the part of the bot that is logic rather than I/O:

- `date_text.dfy` (module `DateText`): the manual date normaliser `extractManualExpirationDate`
  and the date scanner inside `extractExpirationDate`. The scanner is written as a recursive search
  for the leftmost match. At each position it tries the alternatives in the order of the regular
  expression. A regular expression made of `\d{n}` and literal characters is described by a template
  such as `"DD/DD/DDDD"`, where `D` stands for one ASCII digit.
- `js_date.dfy` (module `JsDate`): `parseDate` and the two-day step back of `createCalendarEvent`.
  A JavaScript `Date` is modelled as the number of its local day since 1 January 1970. The
  arithmetic is the ECMAScript one (DayFromYear, MakeDay, TimeClip), so out-of-range days and months
  roll over, and the years 0000–0099 mean 1900–1999. `CalendarDate` and `DayNumber` map
  calendar dates to day numbers, one-to-one, and `TwoDaysBefore` steps a calendar date back two
  days, against which the two-day step on day numbers is proved.
- `services.dfy` (module `Services`): the outcomes of the external services as plain values
  (barcode decode, product lookup, OCR, calendar insert). It also holds the `getProductInfo`
  mapping and `isUserAuthorized`.
- `bot.dfy` (module `Bot`): class `TelegramBot` with the two dictionaries `userState` and
  `productInfo` as `map` fields, one method per handler (`/start`, button callback, photo, text), and
  `CreateCalendarEvent` with the calendar callback. Each handler is one atomic step. The service
  outcomes are its parameters and the messages it sends are its result, in order. `Valid()` is the
  invariant that every handler keeps. It says that a chat waiting for an expiration date always has a
  product on record, so `productInfo[chatId].name` (bot.js:226) never reads a property of null.
- `wrappers.dfy`: the `Option` type, standing for JavaScript's `null` and for missing keys.

Behaviours of the code that a reader might not expect, all modelled as written:

- `/start` writes no state and does not reset a conversation.
- Only `/start` and the buttons check authorization. Photos and texts do not.
- A button is honoured in every state.
- Every message goes through the text handler. A message without text (a sticker, a voice note)
  sent while a name is awaited is stored as a product without a name, titled "undefined". Sent while
  a date is awaited, it makes the handler throw: nothing is answered and nothing changes.
- A calendar error keeps both entries of the chat.
- A date read from a photo leaves the chat waiting for an expiration photo until the insert succeeds.
- An impossible date such as `31/02/2026` is not refused. It rolls over to 3 March 2026
  (`JsDate.DayRollsOver`).
- A `DD-MM-YYYY` date found by OCR is passed on with its dashes. `parseDate` turns it into an
  invalid Date, `toISOString` throws, and the photo handler's `catch` answers with its generic error.
  The chat's state is unchanged (`Bot.DashedDateHasNoEvent`, `Bot.DashedOcrDateScenario`).

## Model

| member | source | states |
|---|---|---|
| `DateText.ManualAcceptsExactlyTwoShapes` | bot.js:257-260 | the manual normaliser returns non-null exactly when the whole text is two digits, `/`, two digits, `/`, four digits, or two digits, `/`, four digits |
| `DateText.ManualRefusesDashes` | bot.js:257 | a typed date with `-` separators, in either shape, gives null |
| `DateText.ManualResult` | bot.js:260-268 | `MM/YYYY` becomes `"01/" + text`; `DD/MM/YYYY` is returned unchanged |
| `DateText.ManualResultIsFullDate` | bot.js:263-268 | every non-null result has the `DD/MM/YYYY` shape |
| `DateText.ManualIdempotent` | bot.js:255-272 | normalising a normalised date returns the same date |
| `DateText.MatchAtIsFirstAlternative` | bot.js:53 | at one position, the alternative taken is the first one in the expression's order that matches there, or none matches |
| `DateText.FirstMatchFrom` | bot.js:53-57 | the search returns the leftmost position with a match, and nothing exactly when no position from the start on has one |
| `DateText.ReplaceFirst` | bot.js:61 | `replace` with a one-character string replaces only the first occurrence and keeps the length |
| `DateText.ScanNoneIffNoMatch` | bot.js:54-67 | the scanner returns null exactly when no alternative matches anywhere in the text |
| `DateText.ScanHasLeftmostMatch` | bot.js:54-57 | when the scanner returns a date, a leftmost match exists |
| `DateText.ScanUsesLeftmostMatch` | bot.js:53-64 | the result comes from the leftmost match, trying the alternatives in order there: a full date is returned as scanned, `-` included; `MM/YYYY` and `MM-YYYY` become `01/MM/YYYY` |
| `DateText.ScanResultShape` | bot.js:57-64 | every scanned date has the shape `DD/MM/YYYY` or `DD-MM-YYYY` |
| `DateText.ScanAgreesWithManual` | bot.js:53-66 | on every text the manual normaliser accepts, the OCR scanner returns the same date |
| `JsDate.YearLength` | bot.js:251 | the day numbers of `new Date` give a leap year 366 days and any other year 365 |
| `JsDate.DayNumberInjective` | bot.js:251 | two calendar dates with the same day number are the same date |
| `JsDate.TwoDaysBefore` | bot.js:223 | the calendar date two days earlier, borrowing from the month and the year, is a calendar date |
| `JsDate.TwoDaysBackBorrows` | bot.js:223 | two days back in day numbers is `TwoDaysBefore` in the calendar |
| `JsDate.FieldsByDigits` | bot.js:250 | `Number` reads each field of `DD/MM/YYYY` as its decimal digits |
| `JsDate.SlashDatesAreValid` | bot.js:249-252 | every `DD/MM/YYYY` string of digits gives a valid Date, and so does its reminder |
| `JsDate.DashDatesAreInvalid` | bot.js:249-252 | a `DD-MM-YYYY` string gives an invalid Date, and its reminder stays invalid |
| `JsDate.ParseCalendarDate` | bot.js:249-252 | `DD/MM/YYYY` naming a real date from year 100 on parses to that date's day number |
| `JsDate.ReminderIsTwoDaysBefore` | bot.js:222-223 | the reminder of such a date is the date two calendar days earlier |
| `JsDate.ReminderMidMonth` | bot.js:222-223 | the reminder of `15/03/2026` is 13 March 2026 |
| `JsDate.ReminderBorrowsMonth` | bot.js:222-223 | the reminder of `01/03/2026` is 27 February 2026 |
| `JsDate.ReminderBorrowsYear` | bot.js:222-223 | the reminder of `01/01/2026` is 30 December 2025 |
| `JsDate.DayRollsOver` | bot.js:251 | `31/02/2026` parses to 3 March 2026 |
| `JsDate.MonthRollsOver` | bot.js:251 | `01/13/2026` parses to 1 January 2027 |
| `JsDate.TwoDigitYearExample` | bot.js:251 | `01/01/0050` parses to 1 January 1950 |
| `Services.GetProductInfo` | bot.js:201-218 | a product is returned exactly for `status === 1` with a product object, and it carries that object's name, brands and quantity; a failed request gives null |
| `Services.ExtractExpirationDate` | bot.js:45-71 | a failed OCR request gives null; any date returned has the `DD/MM/YYYY` or `DD-MM-YYYY` shape |
| `Services.IsUserAuthorized` | bot.js:31-33 | true exactly when the id occurs in the authorized list |
| `Bot.ManualDateEvent` | bot.js:221-228 | every accepted manual date yields an event titled with the product name, whose start equals its end and lies two calendar days before the date |
| `Bot.DashedDateHasNoEvent` | bot.js:222-227 | a `DD-MM-YYYY` date from the scanner never yields an event, because `toISOString` throws |
| `Bot.TelegramBot.constructor` | bot.js:27-28 | both dictionaries start empty |
| `Bot.TelegramBot.OnStart` | bot.js:75-98 | an unauthorized sender gets only the rejection, an authorized one the choice of method; no state is written |
| `Bot.TelegramBot.OnCallback` | bot.js:101-118 | an unauthorized sender gets only the rejection and nothing changes; `manual_entry` sets the chat to `waitingForProductNameManual`, `photo_entry` to `waitingForBarcode`, in any state; other data changes nothing |
| `Bot.TelegramBot.CreateCalendarEvent` | bot.js:221-246 | the event is built from the stored product, or the call throws on an invalid date; on a calendar error both entries stay; on success exactly this chat's two entries are deleted |
| `Bot.TelegramBot.OnPhoto` | bot.js:121-178 | a failed download changes nothing; for a barcode, a decode failure or a lookup miss lead to `waitingForProductNameManual` and a found product is stored with `waitingForExpirationDate`; for an expiration photo, no date leads to `waitingForExpirationDateManual`, and a date is scheduled, with an invalid date caught as an image error and nothing changed; other states change nothing |
| `Bot.TelegramBot.OnText` | bot.js:181-198 | a name is stored as `{name: text}`, missing for a message without text, and moves to `waitingForExpirationDateManual`; in the date state a message without text changes nothing and sends nothing, an invalid date changes nothing; an accepted date always yields an event, then a calendar error keeps both entries and success deletes them; other states change nothing |

## Left out

- Telegram transport: sending messages, `onText`, `getFileLink`, the inline keyboard. Messages are returned as a list of `Reply` values instead of being sent.
- The library delivers every message to the `message` handler before the `photo` and `/start` handlers. A photo or a `/start` text therefore also passes through the text handler. Here each handler is its own step, and the texts that trigger `/start` are not modelled.
- The OCR HTTP request, the barcode decoder, the Open Food Facts request and the Google Calendar insert are external calls. Only their outcomes are modelled, as parameters.
- Configuration and credential loading, the image download, stream piping and the deletion of the temporary file are plumbing. Only the download's success is modelled.
- Asynchronous interleaving: each handler, including the calendar callback it triggers, is one atomic step. Races between overlapping events are not modelled.
- `toISOString`, `toDateString`, the `Europe/Madrid` time zone and logging are output formatting. Instants are local day numbers.
- `JsDate.TimeClip`: the ±10^8-day limit is applied to the local day, not to the UTC time value.
- `JsDate.TwoDaysEarlier`: `setDate(getDate() - 2)` is modelled as the day number minus two. ECMAScript's MakeDay gives that result, but the reading of day, month and year back from a day number is not modelled.
- `JsDate.ParseDate`: defined only on the strings the two normalisers return, which are the only strings the bot passes to it. `split` and `Number` on other strings are not modelled.
- `Bot.Title`: a missing name (`None`) is rendered as "undefined", which is what a missing field and a message without text give. A product whose `product_name` is a JSON `null` would be titled "null"; `Option` does not tell `null` from a missing field, so that title is not modelled.
- `Services.GetProductInfo`: `status` is modelled as an integer. A reply whose status is not a number is not modelled; `=== 1` would reject it like any status other than 1.
