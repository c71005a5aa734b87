/** The HTTP layer (Controllers/UrlController.cs): each endpoint as a method over
    the service, with the responses as an abstract datatype. QR rendering is an
    opaque collaborator. */
module UrlApi {
  import opened Wrappers
  import opened ShortenedUrls
  import opened UrlShortening

  const MinQrSize: int := 50
  const MaxQrSize: int := 1000
  const DefaultQrSize: Int32 := 200

  const InternalServerError: string := "Internal server error"
  const NotFoundOrExpired: string := "URL not found or expired"
  const UrlNotFound: string := "URL not found"
  const DeletedMessage: string := "URL deleted successfully"
  const SizeOutOfRange: string := "Size must be between 50 and 1000 pixels"
  const PngContentType: string := "image/png"

  /** The message of the `ArgumentOutOfRangeException` that `DateTime.AddMinutes`
      throws when the result falls outside the range of `DateTime`. */
  const DateArithmeticMessage: string :=
    "The added or subtracted value results in an un-representable DateTime. (Parameter 'value')"

  /** The body of `POST shorten`. */
  datatype ShortenUrlRequest = ShortenUrlRequest(url: string, expirationMinutes: Option<Int32>)

  /** One element of the listing returned by `GET`. */
  datatype ListItem = ListItem(
    shortUrl: string,
    shortCode: string,
    originalUrl: string,
    createdAt: Ticks,
    expiresAt: Option<Ticks>,
    clickCount: Int32,
    isExpired: bool)

  datatype Body =
    | Created(shortUrl: string, shortCode: string, originalUrl: string, expiresAt: Option<Ticks>, clickCount: Int32)
    | Listing(items: seq<ListItem>)
    | Message(message: string)
    | QrCode(qrCode: string, shortUrl: string, originalUrl: string, size: Int32)

  /** The action results the controller produces. */
  datatype Response =
    | Ok(body: Body)
    | BadRequest(error: string)
    | NotFound(error: string)
    | InternalError(error: string)
    | Redirect(location: string)
    | File(contents: seq<bv8>, contentType: string, fileName: string)

  /** `DateTime.AddMinutes` with a whole number of minutes: exact tick arithmetic
      that throws (here: fails with the runtime's message) outside the range of
      `DateTime`. */
  function AddMinutes(t: Ticks, minutes: Int32): (r: Result<Ticks, string>)
    ensures r.Success? <==> 0 <= t + minutes * TicksPerMinute <= MaxTicks
    ensures r.Success? ==> r.value - t == minutes * TicksPerMinute
    ensures r.Failure? ==> r.error == DateArithmeticMessage
  {
    var ticks := t + minutes * TicksPerMinute;
    if 0 <= ticks <= MaxTicks then Success(ticks) else Failure(DateArithmeticMessage)
  }

  /** The absolute expiry the controller hands to the service: none when no
      minutes are given, otherwise `now` plus that many minutes. */
  function ExpiresAtFor(now: Ticks, expirationMinutes: Option<Int32>): (r: Result<Option<Ticks>, string>)
    ensures r == Success(None) <==> expirationMinutes.None?
    ensures expirationMinutes == Some(0) ==> r == Success(Some(now))
    ensures r.Success? && r.value.Some? ==>
      expirationMinutes.Some? && r.value.value == now + expirationMinutes.value * TicksPerMinute
    ensures expirationMinutes.Some? && expirationMinutes.value > 0 && r.Success? ==> r.value.value > now
    ensures r.Failure? ==>
      && expirationMinutes.Some?
      && !(0 <= now + expirationMinutes.value * TicksPerMinute <= MaxTicks)
      && r.error == DateArithmeticMessage
  {
    match expirationMinutes
    case None => Success(None)
    case Some(m) =>
      match AddMinutes(now, m)
      case Success(t) => Success(Some(t))
      case Failure(e) => Failure(e)
  }

  /** The error responses of `ShortenUrl`: an `ArgumentException` becomes a bad
      request carrying its message; anything else a generic server error. */
  function ShortenFailure(e: ServiceError): (r: Response)
    ensures r.BadRequest? <==> e.ArgumentError?
    ensures e.ArgumentError? ==> r.error == e.message
    ensures !e.ArgumentError? ==> r == InternalError(InternalServerError)
  {
    match e
    case ArgumentError(m) => BadRequest(m)
    case Unfinished => InternalError(InternalServerError)
  }

  /** The projection `GetAllUrls` applies to each record; it computes the expiry
      flag on its own, from the same clock reading. */
  function ToListItem(u: ShortenedUrl, now: Ticks): (item: ListItem)
    ensures item.isExpired == IsUrlExpired(u, now)
    ensures item.shortUrl == ShortUrl(u) && item.shortCode == u.shortCode
    ensures item.originalUrl == u.originalUrl && item.createdAt == u.createdAt
    ensures item.expiresAt == u.expiresAt && item.clickCount == u.clickCount
  {
    ListItem(ShortUrl(u), u.shortCode, u.originalUrl, u.createdAt, u.expiresAt, u.clickCount,
             u.expiresAt.Some? && now > u.expiresAt.value)
  }

  function ListItems(urls: seq<ShortenedUrl>, now: Ticks): (items: seq<ListItem>)
    ensures |items| == |urls|
    ensures forall k :: 0 <= k < |urls| ==> items[k] == ToListItem(urls[k], now)
  {
    seq(|urls|, k requires 0 <= k < |urls| => ToListItem(urls[k], now))
  }

  /** The size window of both QR endpoints. */
  function SizeAccepted(size: int): (ok: bool)
    ensures ok <==> MinQrSize <= size <= MaxQrSize
  {
    !(size < MinQrSize || size > MaxQrSize)
  }

  /** The download name of a QR image. */
  function QrFileName(shortCode: string): (name: string)
    ensures |name| == |shortCode| + 12
    ensures name[..8] == "qr-code-" && name[|name| - 4..] == ".png"
    ensures name[8..|name| - 4] == shortCode
  {
    "qr-code-" + shortCode + ".png"
  }

  /** The listing shows every record, newest first, each flagged as the service
      would judge its expiry. */
  lemma ListingShowsEveryRecord(rows: seq<ShortenedUrl>, now: Ticks)
    ensures var items := ListItems(SortByCreatedDesc(rows), now);
      && |items| == |rows|
      && (forall i, j :: 0 <= i < j < |items| ==> items[i].createdAt >= items[j].createdAt)
      && (forall u :: u in rows ==> ToListItem(u, now) in items)
  {
    var urls := SortByCreatedDesc(rows);
    var items := ListItems(urls, now);
    forall u | u in rows ensures ToListItem(u, now) in items {
      assert u in multiset(urls);
      var k :| 0 <= k < |urls| && urls[k] == u;
      assert items[k] == ToListItem(u, now);
    }
  }

  /** The table and the identity counter are as they were. */
  twostate predicate Unchanged(s: UrlShorteningService)
    reads s
  {
    s.rows == old(s.rows) && s.nextId == old(s.nextId)
  }

  class UrlController {
    const service: UrlShorteningService
    /** `IQrCodeService.GenerateQrCode`: base64 PNG of a URL. */
    const qrBase64: (string, int) -> string
    /** `IQrCodeService.GenerateQrCodeBytes`: PNG bytes of a URL. */
    const qrPng: (string, int) -> seq<bv8>

    constructor(service: UrlShorteningService, qrBase64: (string, int) -> string, qrPng: (string, int) -> seq<bv8>)
      ensures this.service == service && this.qrBase64 == qrBase64 && this.qrPng == qrPng
    {
      this.service := service;
      this.qrBase64 := qrBase64;
      this.qrPng := qrPng;
    }

    /** `POST shorten`. `fuel` bounds the service's retry loop. */
    method ShortenUrl(request: ShortenUrlRequest, now: Ticks, fuel: nat) returns (response: Response)
      requires service.Valid()
      modifies service
      ensures service.Valid()
      ensures response.Ok? || response.BadRequest? || response.InternalError?
      ensures ExpiresAtFor(now, request.expirationMinutes).Failure? ==>
        response == BadRequest(DateArithmeticMessage) && Unchanged(service)
      ensures ExpiresAtFor(now, request.expirationMinutes).Success? && !service.isAbsoluteUri(request.url) ==>
        response == BadRequest(InvalidUrlFormat) && Unchanged(service)
      ensures ExpiresAtFor(now, request.expirationMinutes).Success? && service.isAbsoluteUri(request.url) ==>
        response.Ok? || response == InternalError(InternalServerError)
      ensures !response.Ok? ==> Unchanged(service)
      ensures response.InternalError? ==> response.error == InternalServerError
      ensures response.Ok? ==>
        && ExpiresAtFor(now, request.expirationMinutes).Success?
        && |service.rows| == |old(service.rows)| + 1
        && service.rows[..|old(service.rows)|] == old(service.rows)
        && var u := service.rows[|old(service.rows)|];
        && response.body == Created(ShortUrl(u), u.shortCode, u.originalUrl, u.expiresAt, u.clickCount)
        && u.originalUrl == request.url
        && u.expiresAt == ExpiresAtFor(now, request.expirationMinutes).value
        && u.createdAt == now
        && u.clickCount == 0
        && IsShortCode(u.shortCode)
        && FindByCode(old(service.rows), u.shortCode).None?
    {
      var expiresAt := ExpiresAtFor(now, request.expirationMinutes);
      if expiresAt.Failure? {
        return BadRequest(expiresAt.error);
      }
      var result := service.ShortenUrl(request.url, expiresAt.value, now, fuel);
      match result
      case Success(u) =>
        assert service.rows[..|old(service.rows)|] == old(service.rows);
        response := Ok(Created(ShortUrl(u), u.shortCode, u.originalUrl, u.expiresAt, u.clickCount));
      case Failure(e) =>
        response := ShortenFailure(e);
    }

    /** `GET {shortCode}`: redirect to the original URL and count the click, but
        only when the code resolves. */
    method RedirectUrl(shortCode: string, now: Ticks) returns (response: Response)
      requires service.Valid()
      modifies service
      ensures service.Valid()
      ensures old(Resolve(service.rows, shortCode, now)).None? ==>
        response == NotFound(NotFoundOrExpired) && Unchanged(service)
      ensures old(Resolve(service.rows, shortCode, now)).Some? ==>
        && response == Redirect(old(Resolve(service.rows, shortCode, now)).value.originalUrl)
        && service.rows == IncrementedRows(old(service.rows), shortCode)
        && service.nextId == old(service.nextId)
    {
      var url := service.GetOriginalUrl(shortCode, now);
      if url.None? {
        return NotFound(NotFoundOrExpired);
      }
      service.IncrementClickCount(shortCode);
      response := Redirect(url.value.originalUrl);
    }

    /** `GET`: every record, newest first, with its expiry flag. */
    method GetAllUrls(now: Ticks) returns (response: Response)
      ensures response == Ok(Listing(ListItems(SortByCreatedDesc(service.rows), now)))
      ensures |response.body.items| == |service.rows|
      ensures forall k :: 0 <= k < |response.body.items| ==>
        response.body.items[k].isExpired == IsUrlExpired(SortByCreatedDesc(service.rows)[k], now)
    {
      var urls := service.GetAllUrls();
      response := Ok(Listing(ListItems(urls, now)));
    }

    /** `DELETE {shortCode}`. */
    method DeleteUrl(shortCode: string) returns (response: Response)
      requires service.Valid()
      modifies service
      ensures service.Valid()
      ensures FindByCode(old(service.rows), shortCode).Some? ==> response == Ok(Message(DeletedMessage))
      ensures FindByCode(old(service.rows), shortCode).None? ==> response == NotFound(UrlNotFound)
      ensures service.rows == DeletedRows(old(service.rows), shortCode)
      ensures service.nextId == old(service.nextId)
    {
      var deleted := service.DeleteUrl(shortCode);
      if !deleted {
        return NotFound(UrlNotFound);
      }
      response := Ok(Message(DeletedMessage));
    }

    /** `GET {shortCode}/qr`: the code must resolve before the size is looked at. */
    method GetQrCode(shortCode: string, now: Ticks, size: Int32 := DefaultQrSize) returns (response: Response)
      requires service.Valid()
      ensures Resolve(service.rows, shortCode, now).None? ==> response == NotFound(NotFoundOrExpired)
      ensures Resolve(service.rows, shortCode, now).Some? && !SizeAccepted(size) ==>
        response == BadRequest(SizeOutOfRange)
      ensures Resolve(service.rows, shortCode, now).Some? && SizeAccepted(size) ==>
        var u := Resolve(service.rows, shortCode, now).value;
        response == Ok(QrCode(qrBase64(u.originalUrl, size), ShortUrl(u), u.originalUrl, size))
    {
      var url := service.GetOriginalUrl(shortCode, now);
      if url.None? {
        return NotFound(NotFoundOrExpired);
      }
      if size < MinQrSize || size > MaxQrSize {
        return BadRequest(SizeOutOfRange);
      }
      var qrCodeBase64 := qrBase64(url.value.originalUrl, size);
      response := Ok(QrCode(qrCodeBase64, ShortUrl(url.value), url.value.originalUrl, size));
    }

    /** `GET {shortCode}/qr/image`: the same checks, answered with a PNG download. */
    method GetQrCodeImage(shortCode: string, now: Ticks, size: Int32 := DefaultQrSize) returns (response: Response)
      requires service.Valid()
      ensures Resolve(service.rows, shortCode, now).None? ==> response == NotFound(NotFoundOrExpired)
      ensures Resolve(service.rows, shortCode, now).Some? && !SizeAccepted(size) ==>
        response == BadRequest(SizeOutOfRange)
      ensures Resolve(service.rows, shortCode, now).Some? && SizeAccepted(size) ==>
        var u := Resolve(service.rows, shortCode, now).value;
        response == File(qrPng(u.originalUrl, size), PngContentType, QrFileName(shortCode))
    {
      var url := service.GetOriginalUrl(shortCode, now);
      if url.None? {
        return NotFound(NotFoundOrExpired);
      }
      if size < MinQrSize || size > MaxQrSize {
        return BadRequest(SizeOutOfRange);
      }
      var qrCodeBytes := qrPng(url.value.originalUrl, size);
      response := File(qrCodeBytes, PngContentType, QrFileName(shortCode));
    }
  }
}
