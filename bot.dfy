/**
 * The bot's conversation state: the two dictionaries `userState` and `productInfo`, keyed by
 * chat id, and the handlers that update them (`/start`, the button callback, photos, texts) together
 * with `createCalendarEvent` and its insert callback. Every handler is one atomic step whose
 * service outcomes are parameters; the messages it sends are returned, in order.
 */
module Bot {
  import opened Wrappers
  import opened DateText
  import opened JsDate
  import opened Services

  type ChatId = int
  type UserId = int

  /** The tags `userState` holds; a chat without an entry is idle. */
  datatype ChatState =
    | WaitingForProductNameManual
    | WaitingForBarcode
    | WaitingForExpirationDate
    | WaitingForExpirationDateManual
  {
    predicate AwaitsExpirationDate() {
      WaitingForExpirationDate? || WaitingForExpirationDateManual?
    }
  }

  /** The messages the bot sends, one constructor per message text. */
  datatype Reply =
    | NotAuthorized
    | ChooseEntryMethod
    | AskProductName
    | AskBarcodePhoto
    | BarcodeUnreadable
    | ProductDetected(product: Product)
    | AskExpirationPhoto
    | ProductNotFound
    | ExpirationDetected(date: string)
    | ExpirationUnreadable
    | ProductRegistered
    | InvalidManualDate
    | ExpirationRegistered(date: string)
    | CalendarError
    | ReminderCreated(title: string, day: int)
    | ImageError

  /** The event `createCalendarEvent` inserts; its instants are local day numbers. */
  datatype ReminderEvent = ReminderEvent(summary: string, start: int, end: int)

  /** `${productInfo[chatId].name}`: a missing name is rendered as "undefined". */
  function Title(p: Product): string {
    match p.name
    case Some(n) => n
    case None => "undefined"
  }

  /** The event built for an expiration date; None where `toISOString` throws on an invalid date. */
  function BuildEvent(p: Product, expiration: string): Option<ReminderEvent>
    requires IsNormalisedDate(expiration)
  {
    match ReminderDate(expiration)
    case InvalidDate => None
    case LocalDay(n) => Some(ReminderEvent(Title(p), n, n))
  }

  /**
   * An event is built for every date the manual normaliser accepts; it is a zero-length marker
   * at the reminder instant, and for a calendar date it falls two calendar days before it.
   */
  lemma ManualDateEvent(p: Product, text: string)
    requires ExtractManualExpirationDate(text).Some?
    ensures IsNormalisedDate(ExtractManualExpirationDate(text).value)
    ensures var d := ExtractManualExpirationDate(text).value;
      && BuildEvent(p, d).Some?
      && BuildEvent(p, d).value.start == BuildEvent(p, d).value.end
      && BuildEvent(p, d).value.summary == Title(p)
      && LocalDay(BuildEvent(p, d).value.start) == ReminderDate(d)
      && (var f := Fields(d);
          IsCalendarDate(f.year, f.month, f.day) && f.year >= 100 ==>
            var r := TwoDaysBefore(f.year, f.month, f.day);
            BuildEvent(p, d).value.start == DayNumber(r.year, r.month, r.day))
  {
    var d := ExtractManualExpirationDate(text).value;
    ManualResultIsFullDate(text);
    SlashDatesAreValid(d);
    var f := Fields(d);
    if IsCalendarDate(f.year, f.month, f.day) && f.year >= 100 {
      ReminderIsTwoDaysBefore(d);
    }
  }

  /** A dash-separated date found by OCR never gets an event: `toISOString` throws on it. */
  lemma DashedDateHasNoEvent(p: Product, text: string)
    requires ScanExpirationDate(text).Some? && DayMonthYear(ScanExpirationDate(text).value, '-')
    ensures BuildEvent(p, ScanExpirationDate(text).value).None?
  {
    DashDatesAreInvalid(ScanExpirationDate(text).value);
  }

  function Get<K, V>(m: map<K, V>, k: K): Option<V> {
    if k in m then Some(m[k]) else None
  }

  class TelegramBot {
    const authorizedUsers: seq<UserId>
    var userState: map<ChatId, ChatState>
    var productInfo: map<ChatId, Option<Product>>

    /** A chat waiting for an expiration date has a product on record, so naming the event never reads a property of null. */
    ghost predicate Valid()
      reads this
    {
      forall c | c in userState && userState[c].AwaitsExpirationDate() :: c in productInfo && productInfo[c].Some?
    }

    constructor (authorizedUsers: seq<UserId>)
      ensures Valid()
      ensures this.authorizedUsers == authorizedUsers && userState == map[] && productInfo == map[]
    {
      this.authorizedUsers := authorizedUsers;
      userState := map[];
      productInfo := map[];
    }

    /** The `/start` handler: a rejection, or the choice of entry method; it writes no state. */
    method OnStart(fromId: UserId) returns (replies: seq<Reply>)
      ensures IsUserAuthorized(authorizedUsers, fromId) ==> replies == [ChooseEntryMethod]
      ensures !IsUserAuthorized(authorizedUsers, fromId) ==> replies == [NotAuthorized]
    {
      if !IsUserAuthorized(authorizedUsers, fromId) {
        replies := [NotAuthorized];
        return;
      }
      replies := [ChooseEntryMethod];
    }

    /** The button handler: honoured in any state, for authorized users only. */
    method OnCallback(chatId: ChatId, fromId: UserId, data: string) returns (replies: seq<Reply>)
      requires Valid()
      modifies this
      ensures Valid()
      ensures !IsUserAuthorized(authorizedUsers, fromId) ==>
        replies == [NotAuthorized] && userState == old(userState) && productInfo == old(productInfo)
      ensures IsUserAuthorized(authorizedUsers, fromId) && data == "manual_entry" ==>
        && replies == [AskProductName]
        && userState == old(userState)[chatId := WaitingForProductNameManual]
        && productInfo == old(productInfo)
      ensures IsUserAuthorized(authorizedUsers, fromId) && data == "photo_entry" ==>
        && replies == [AskBarcodePhoto]
        && userState == old(userState)[chatId := WaitingForBarcode]
        && productInfo == old(productInfo)
      ensures IsUserAuthorized(authorizedUsers, fromId) && data != "manual_entry" && data != "photo_entry" ==>
        replies == [] && userState == old(userState) && productInfo == old(productInfo)
    {
      if !IsUserAuthorized(authorizedUsers, fromId) {
        replies := [NotAuthorized];
        return;
      }
      replies := [];
      if data == "manual_entry" {
        replies := [AskProductName];
        userState := userState[chatId := WaitingForProductNameManual];
      } else if data == "photo_entry" {
        replies := [AskBarcodePhoto];
        userState := userState[chatId := WaitingForBarcode];
      }
    }

    /**
     * `createCalendarEvent` with the insert's callback: builds the event (throwing on an invalid
     * date before anything is inserted), and on success deletes both entries of this chat only.
     */
    method CreateCalendarEvent(chatId: ChatId, expirationDate: string, calendar: CalendarOutcome)
      returns (replies: seq<Reply>, inserted: Option<ReminderEvent>, threw: bool)
      requires Valid()
      requires IsNormalisedDate(expirationDate)
      requires chatId in productInfo && productInfo[chatId].Some?
      modifies this
      ensures Valid()
      ensures inserted == BuildEvent(old(productInfo)[chatId].value, expirationDate)
      ensures threw <==> inserted.None?
      ensures (threw || calendar.CalendarFailed?) ==>
        userState == old(userState) && productInfo == old(productInfo)
      ensures threw ==> replies == []
      ensures !threw && calendar.CalendarFailed? ==> replies == [CalendarError]
      ensures !threw && calendar.CalendarCreated? ==>
        && replies == [ReminderCreated(inserted.value.summary, inserted.value.start)]
        && userState == old(userState) - {chatId}
        && productInfo == old(productInfo) - {chatId}
    {
      var product := productInfo[chatId].value;
      inserted := BuildEvent(product, expirationDate);
      if inserted.None? {
        replies, threw := [], true;
        return;
      }
      threw := false;
      if calendar.CalendarFailed? {
        replies := [CalendarError];
        return;
      }
      replies := [ReminderCreated(Title(product), inserted.value.start)];
      userState := userState - {chatId};
      productInfo := productInfo - {chatId};
    }

    /**
     * The photo handler. It checks no authorization. A failed download is caught; otherwise a
     * photo counts only while waiting for a barcode or for an expiration date.
     */
    method OnPhoto(chatId: ChatId, downloaded: bool, decode: DecodeOutcome, lookup: LookupResponse,
                   ocr: OcrOutcome, calendar: CalendarOutcome)
      returns (replies: seq<Reply>, inserted: Option<ReminderEvent>)
      requires Valid()
      modifies this
      ensures Valid()
      ensures (!downloaded || Get(old(userState), chatId) !in {Some(WaitingForBarcode), Some(WaitingForExpirationDate)}) ==>
        && userState == old(userState) && productInfo == old(productInfo) && inserted == None
        && replies == (if downloaded then [] else [ImageError])
      // waiting for a barcode
      ensures downloaded && Get(old(userState), chatId) == Some(WaitingForBarcode) && !DecodeSucceeded(decode) ==>
        && replies == [BarcodeUnreadable] && inserted == None
        && userState == old(userState)[chatId := WaitingForProductNameManual]
        && productInfo == old(productInfo)
      ensures downloaded && Get(old(userState), chatId) == Some(WaitingForBarcode) && DecodeSucceeded(decode) ==>
        && inserted == None
        && productInfo == old(productInfo)[chatId := GetProductInfo(lookup)]
        && (GetProductInfo(lookup).Some? ==>
              && replies == [ProductDetected(GetProductInfo(lookup).value), AskExpirationPhoto]
              && userState == old(userState)[chatId := WaitingForExpirationDate])
        && (GetProductInfo(lookup).None? ==>
              && replies == [ProductNotFound]
              && userState == old(userState)[chatId := WaitingForProductNameManual])
      // waiting for an expiration date
      ensures downloaded && Get(old(userState), chatId) == Some(WaitingForExpirationDate) && ExtractExpirationDate(ocr).None? ==>
        && replies == [ExpirationUnreadable] && inserted == None
        && userState == old(userState)[chatId := WaitingForExpirationDateManual]
        && productInfo == old(productInfo)
      ensures downloaded && Get(old(userState), chatId) == Some(WaitingForExpirationDate) && ExtractExpirationDate(ocr).Some? ==>
        var date := ExtractExpirationDate(ocr).value;
        && IsNormalisedDate(date)
        && chatId in old(productInfo) && old(productInfo)[chatId].Some?
        && inserted == BuildEvent(old(productInfo)[chatId].value, date)
        && (inserted.None? ==>
              replies == [ExpirationDetected(date), ImageError]
              && userState == old(userState) && productInfo == old(productInfo))
        && (inserted.Some? && calendar.CalendarFailed? ==>
              replies == [ExpirationDetected(date), CalendarError]
              && userState == old(userState) && productInfo == old(productInfo))
        && (inserted.Some? && calendar.CalendarCreated? ==>
              replies == [ExpirationDetected(date), ReminderCreated(inserted.value.summary, inserted.value.start)]
              && userState == old(userState) - {chatId} && productInfo == old(productInfo) - {chatId})
    {
      var current := Get(userState, chatId);
      replies, inserted := [], None;
      if !downloaded {
        replies := [ImageError];
        return;
      }
      if current == Some(WaitingForBarcode) {
        if !DecodeSucceeded(decode) {
          replies := [BarcodeUnreadable];
          userState := userState[chatId := WaitingForProductNameManual];
        } else {
          var info := GetProductInfo(lookup);
          productInfo := productInfo[chatId := info];
          if info.Some? {
            replies := [ProductDetected(info.value), AskExpirationPhoto];
            userState := userState[chatId := WaitingForExpirationDate];
          } else {
            replies := [ProductNotFound];
            userState := userState[chatId := WaitingForProductNameManual];
          }
        }
      } else if current == Some(WaitingForExpirationDate) {
        var expirationDate := ExtractExpirationDate(ocr);
        if expirationDate.Some? {
          var sent, threw;
          sent, inserted, threw := CreateCalendarEvent(chatId, expirationDate.value, calendar);
          // a throw inside createCalendarEvent lands in the handler's catch
          replies := [ExpirationDetected(expirationDate.value)] + sent + (if threw then [ImageError] else []);
        } else {
          replies := [ExpirationUnreadable];
          userState := userState[chatId := WaitingForExpirationDateManual];
        }
      }
    }

    /**
     * The text handler, run for every message. It checks no authorization. `text` is None for a
     * message without text (a sticker, a document, a voice note). A name typed while waiting for one
     * is stored as the product, `undefined` included; a date typed while waiting for one is
     * normalised and, if accepted, scheduled. `undefined.match` throws, so a message without text
     * in the date state ends the handler with nothing sent and nothing changed.
     */
    method OnText(chatId: ChatId, text: Option<string>, calendar: CalendarOutcome)
      returns (replies: seq<Reply>, inserted: Option<ReminderEvent>)
      requires Valid()
      modifies this
      ensures Valid()
      ensures Get(old(userState), chatId) !in {Some(WaitingForProductNameManual), Some(WaitingForExpirationDateManual)} ==>
        replies == [] && inserted == None && userState == old(userState) && productInfo == old(productInfo)
      ensures Get(old(userState), chatId) == Some(WaitingForProductNameManual) ==>
        && replies == [ProductRegistered] && inserted == None
        && productInfo == old(productInfo)[chatId := Some(Product(text, None, None))]
        && userState == old(userState)[chatId := WaitingForExpirationDateManual]
      ensures Get(old(userState), chatId) == Some(WaitingForExpirationDateManual) && text.None? ==>
        replies == [] && inserted == None && userState == old(userState) && productInfo == old(productInfo)
      ensures Get(old(userState), chatId) == Some(WaitingForExpirationDateManual) && text.Some?
              && ExtractManualExpirationDate(text.value).None? ==>
        replies == [InvalidManualDate] && inserted == None && userState == old(userState) && productInfo == old(productInfo)
      ensures Get(old(userState), chatId) == Some(WaitingForExpirationDateManual) && text.Some?
              && ExtractManualExpirationDate(text.value).Some? ==>
        var date := ExtractManualExpirationDate(text.value).value;
        && IsNormalisedDate(date)
        && chatId in old(productInfo) && old(productInfo)[chatId].Some?
        && inserted == BuildEvent(old(productInfo)[chatId].value, date)
        && inserted.Some?
        && (calendar.CalendarFailed? ==>
              replies == [ExpirationRegistered(date), CalendarError]
              && userState == old(userState) && productInfo == old(productInfo))
        && (calendar.CalendarCreated? ==>
              replies == [ExpirationRegistered(date), ReminderCreated(inserted.value.summary, inserted.value.start)]
              && userState == old(userState) - {chatId} && productInfo == old(productInfo) - {chatId})
    {
      var current := Get(userState, chatId);
      replies, inserted := [], None;
      if current == Some(WaitingForProductNameManual) {
        productInfo := productInfo[chatId := Some(Product(text, None, None))];
        replies := [ProductRegistered];
        userState := userState[chatId := WaitingForExpirationDateManual];
      } else if current == Some(WaitingForExpirationDateManual) && text.Some? {
        var expirationDate := ExtractManualExpirationDate(text.value);
        if expirationDate.None? {
          replies := [InvalidManualDate];
        } else {
          ManualDateEvent(productInfo[chatId].value, text.value);
          var sent, threw;
          sent, inserted, threw := CreateCalendarEvent(chatId, expirationDate.value, calendar);
          // nothing catches a throw here; none can happen
          assert !threw;
          replies := [ExpirationRegistered(expirationDate.value)] + sent;
        }
      }
    }
  }

  /** /start, the manual-entry button and a product name, from the handlers' contracts alone. */
  method ManualEntryScenario(calendar: CalendarOutcome)
  {
    var bot := new TelegramBot([7]);
    var chat: ChatId := 100;
    var replies, inserted;
    replies := bot.OnStart(7);
    assert replies == [ChooseEntryMethod];
    replies := bot.OnStart(8);
    assert replies == [NotAuthorized];
    replies := bot.OnCallback(chat, 7, "manual_entry");
    assert Get(bot.userState, chat) == Some(WaitingForProductNameManual);
    replies, inserted := bot.OnText(chat, Some("Leche"), calendar);
    assert replies == [ProductRegistered];
    assert bot.productInfo[chat] == Some(Product(Some("Leche"), None, None));
    assert bot.userState[chat] == WaitingForExpirationDateManual;
  }

  /** In the date-waiting state, "foo" is refused and a sticker is ignored; nothing changes. */
  method ManualDateRefusedScenario(bot: TelegramBot, chat: ChatId, calendar: CalendarOutcome)
    requires bot.Valid()
    requires Get(bot.userState, chat) == Some(WaitingForExpirationDateManual)
    modifies bot
  {
    assert !Whole("foo", DayMonthYearSlash.Template()) && !Whole("foo", MonthYearSlash.Template());
    var replies, inserted := bot.OnText(chat, Some("foo"), calendar);
    assert replies == [InvalidManualDate] && bot.userState[chat] == WaitingForExpirationDateManual;
    replies, inserted := bot.OnText(chat, None, calendar);
    assert replies == [] && bot.userState[chat] == WaitingForExpirationDateManual;
  }

  /** In the date-waiting state, 03/2026 is scheduled for 27 February 2026. */
  method ManualDateScheduledScenario(bot: TelegramBot, chat: ChatId, calendar: CalendarOutcome)
    requires bot.Valid()
    requires Get(bot.userState, chat) == Some(WaitingForExpirationDateManual)
    requires bot.productInfo[chat] == Some(Product(Some("Leche"), None, None))
    modifies bot
  {
    var text := "03/2026";
    assert MonthYear(text, '/') by {
      assert text[0..2] == ['0', '3'] && text[3..7] == ['2', '0', '2', '6'];
    }
    ManualResult(text);
    assert "01/" + text == "01/03/2026";
    ReminderBorrowsMonth();
    var replies, inserted := bot.OnText(chat, Some(text), calendar);
    assert inserted == Some(ReminderEvent("Leche", DayNumber(2026, 2, 27), DayNumber(2026, 2, 27)));
    assert calendar.CalendarCreated? ==> chat !in bot.userState && chat !in bot.productInfo;
    assert calendar.CalendarFailed? ==> bot.userState[chat] == WaitingForExpirationDateManual;
  }

  /** /start, the photo button and a barcode photo whose lookup finds the product. */
  method PhotoEntryScenario(ocr: OcrOutcome, calendar: CalendarOutcome)
  {
    var bot := new TelegramBot([7]);
    var chat: ChatId := 100;
    var replies, inserted;
    replies := bot.OnCallback(chat, 7, "photo_entry");
    assert replies == [AskBarcodePhoto] && bot.userState[chat] == WaitingForBarcode;
    var record := ProductRecord(Some("Leche"), Some("Marca"), Some("1 L"));
    replies, inserted := bot.OnPhoto(chat, true, Decoded("8410000000000"), LookupReply(1, Some(record)), ocr, calendar);
    var product := Product(Some("Leche"), Some("Marca"), Some("1 L"));
    assert replies == [ProductDetected(product), AskExpirationPhoto];
    assert bot.userState[chat] == WaitingForExpirationDate && bot.productInfo[chat] == Some(product);
  }

  /** An expiration photo read as 15-03-2026: the date is announced, then the handler's error message; nothing changes. */
  method DashedOcrDateScenario(bot: TelegramBot, chat: ChatId, calendar: CalendarOutcome)
    requires bot.Valid()
    requires Get(bot.userState, chat) == Some(WaitingForExpirationDate)
    modifies bot
  {
    var text := "15-03-2026";
    assert DayMonthYearSlash.Template()[2] == '/' && text[2] == '-';
    assert IsLeftmostMatch(text, 0, DayMonthYearDash);
    ScanUsesLeftmostMatch(text, 0, DayMonthYearDash);
    assert text[0..10] == text;
    assert ExtractExpirationDate(OcrText(text)) == Some(text);
    var replies, inserted := bot.OnPhoto(chat, true, DecodeError, LookupFailed, OcrText(text), calendar);
    assert replies == [ExpirationDetected(text), ImageError];
    assert bot.userState[chat] == WaitingForExpirationDate;
  }
}
