# URL shortener: a Dafny model of the domain service and its HTTP layer

This project models the core of a small URL-shortening web service. The service
maps long URLs to seven-character codes, redirects visitors, counts clicks,
supports optional expiry, and serves QR images of the short links.

The model has four modules, one per file:

- `Wrappers` (`Wrappers.dfy`): `Option` (a nullable value) and `Result` (an operation that may throw).
- `ShortenedUrls` (`ShortenedUrl.dfy`): the `ShortenedUrl` record, its property initialisers and the derived `ShortUrl`.
  `DateTime` is an integer tick count (`Ticks`, bounded by `DateTime.MaxValue`).
  C# `int` is the bounded subset type `Int32`.
- `UrlShortening` (`UrlShorteningService.dfy`): the domain service.
  It is a class `UrlShorteningService` holding the `ShortenedUrls` table as a sequence of rows in storage order.
  A counter `nextId` stands in for the database's key assignment.
  The class invariant `Valid()` holds the unique index on `ShortCode`, well-formed codes and increasing ids.
  Each service operation is a method.
  The pure parts are functions with their own contracts:
  - the lookup (`FindByCode`, which is `FirstOrDefault`);
  - the expiry predicate;
  - the table after an increment or a delete;
  - the newest-first ordering, an insertion sort proved sorted and a permutation.
- `UrlApi` (`UrlController.cs`'s model, in `UrlController.dfy`): every endpoint as a method of a `UrlController` class over the service.
  Responses are an abstract `Response` datatype (ok, bad request, not found, server error, redirect, file).

The clock is an explicit parameter `now`. Randomness is a nondeterministic choice (`RandomNext`).
`Uri.TryCreate(s, UriKind.Absolute, out _)` is the function-valued field `isAbsoluteUri`, which the model does not define.
The QR renderer is two function-valued fields of the controller.

Points where the code's behaviour is easy to misread, and which the model follows:

- Expiry uses `now > ExpiresAt`. So a record whose expiry is exactly the current instant still resolves, and a zero-minute expiry only takes effect one tick later (`ExpiryBoundary`, `ExpiresAtFor`).
  The service reads the clock again at resolve time, so in practice it has moved on.
  The model uses one `now` per request.
- `ClickCount++` is unchecked C# `int` arithmetic: at `int.MaxValue` it wraps to `int.MinValue` (`Inc32`).
  "Clicks only go up" therefore holds below that bound (`RepeatedClicks`).
- `DateTime.AddMinutes` throws `ArgumentOutOfRangeException` when the result leaves the range of `DateTime`, for example with `ExpirationMinutes = int.MinValue`.
  That exception is an `ArgumentException`, so the controller answers bad request with the runtime's message (`AddMinutes`, `UrlApi.UrlController.ShortenUrl`).
  The text of that message is the .NET runtime's, not the repository's.
- Incrementing is not gated by expiry. The service increments an expired record's counter if asked directly (`IncrementedRows`).
  Only the controller's resolve-first order keeps expired links from being counted.

## Model

| member | source | states |
|---|---|---|
| `ShortenedUrls.NewShortenedUrlDefaults` | Models/ShortenedUrl.cs:9-19 | a new record has click count 0, no expiry, `CreatedAt` equal to the clock reading, and empty URL and code |
| `ShortenedUrls.ShortUrlSplits` | Models/ShortenedUrl.cs:21 | `ShortUrl` is the base `https://short.link/` followed by the code; its length is the sum of both, and stripping the base recovers the code |
| `ShortenedUrls.ShortUrlInjective` | Models/ShortenedUrl.cs:21 | two records have the same short link iff they have the same code |
| `UrlShortening.AlphabetLayout` | Services/UrlShorteningService.cs:98 | the alphabet literal holds the 26 upper-case letters, then the 26 lower-case letters, then the 10 digits, each in order |
| `UrlShortening.AlphabetIsAlphanumeric` | Services/UrlShorteningService.cs:98 | the code alphabet has 62 symbols and contains a character iff it is an ASCII letter or digit |
| `UrlShortening.UrlShorteningService.RandomNext` | Services/UrlShorteningService.cs:100 | `Random.Next(n)` yields some index in [0, n) |
| `UrlShortening.UrlShorteningService.GenerateShortCode` | Services/UrlShorteningService.cs:96-101 | every generated code has length 7 and only alphabet symbols |
| `UrlShortening.ExpiryBoundary` | Services/UrlShorteningService.cs:103-106 | a record without expiry never expires; one is still live at exactly its expiry instant and expired one tick later |
| `UrlShortening.FindByCode` | Services/UrlShorteningService.cs:46-47 | the lookup returns the position of the first row with the code, or none iff no row has it |
| `UrlShortening.Resolve` | Services/UrlShorteningService.cs:44-55 | the resolved record is in the table, has the code and has not expired; no result iff every row with the code has expired or there is none |
| `UrlShortening.UrlShorteningService.GetOriginalUrl` | Services/UrlShorteningService.cs:44-55 | reads the table without changing it and returns exactly `Resolve` of it |
| `UrlShortening.UrlShorteningService.ShortenUrl` | Services/UrlShorteningService.cs:17-42 | a non-absolute URL fails with "Invalid URL format" and leaves the table as it was; success appends exactly one row with the input URL and expiry, clicks 0, `CreatedAt` now, a fresh id and a well-formed code no existing row has; the unique index is preserved |
| `UrlShortening.FindByCodeAppended` | Services/UrlShorteningService.cs:26-38 | looking up a free code after appending a row that carries it finds that new row |
| `UrlShortening.ResolveAfterShorten` | Services/UrlShorteningService.cs:31-55 | a record inserted without expiry keeps the index unique and resolves to itself at any time |
| `UrlShortening.Inc32` | Services/UrlShorteningService.cs:79 | the increment is +1 modulo 2^32; it is exactly +1 below `int.MaxValue` |
| `UrlShortening.IncrementedRows` | Services/UrlShorteningService.cs:72-82 | an increment changes only the counter of the row with the code, expired or not; every code, id and lookup is unchanged; a missing code leaves the table as it was |
| `UrlShortening.UrlShorteningService.IncrementClickCount` | Services/UrlShorteningService.cs:72-82 | the new table is `IncrementedRows` of the old one and the invariant is kept |
| `UrlShortening.RepeatedClicks` | Services/UrlShorteningService.cs:72-82 | n increments on an existing code raise its counter by exactly n, below `int.MaxValue`, and change no other row |
| `UrlShortening.DeletedRows` | Services/UrlShorteningService.cs:57-70 | a delete removes exactly the row with the code, or nothing when there is none; every other row survives; afterwards no row has the code and the index stays unique |
| `UrlShortening.RemoveAtKeepsOrder` | Services/UrlShorteningService.cs:64 | removing one row keeps the others in order and keeps codes unique and ids increasing |
| `UrlShortening.UrlShorteningService.DeleteUrl` | Services/UrlShorteningService.cs:57-70 | returns true iff a row with the code existed; the new table is `DeletedRows` of the old one |
| `UrlShortening.DeleteTwice` | Services/UrlShorteningService.cs:57-70 | after a delete the code is gone, so a second delete finds nothing and changes nothing |
| `UrlShortening.InsertByCreatedDesc` | Services/UrlShorteningService.cs:87 | inserting into a newest-first list keeps it newest first and adds exactly that element |
| `UrlShortening.SortByCreatedDesc` | Services/UrlShorteningService.cs:84-89 | the listing order is sorted by non-increasing `CreatedAt` and is a permutation of the table |
| `UrlShortening.UrlShorteningService.GetAllUrls` | Services/UrlShorteningService.cs:84-89 | returns every row newest first, as a permutation of the table |
| `UrlShortening.ExpiredIsHiddenButListed` | Services/UrlShorteningService.cs:44-55 | an expired record does not resolve but is still in the full listing |
| `UrlApi.AddMinutes` | Controllers/UrlController.cs:31 | adding minutes moves the instant by exactly that many minutes, and fails with the date-arithmetic message iff the result leaves the `DateTime` range |
| `UrlApi.ExpiresAtFor` | Controllers/UrlController.cs:27-32 | no expiry iff no minutes were given; otherwise `now` plus the minutes, so 0 minutes gives `now` and positive minutes a later instant; failure only when out of range |
| `UrlApi.ShortenFailure` | Controllers/UrlController.cs:45-53 | an argument error becomes a bad request carrying its message; any other failure becomes the generic "Internal server error" |
| `UrlApi.UrlController.ShortenUrl` | Controllers/UrlController.cs:22-54 | an out-of-range expiry or a non-absolute URL answers bad request and changes nothing; ok carries the new row's link, code, URL, expiry and count, and that row is the only addition; a server error changes nothing |
| `UrlApi.UrlController.RedirectUrl` | Controllers/UrlController.cs:56-77 | an unknown or expired code answers not found and changes nothing; otherwise redirects to the original URL and increments that record's counter only |
| `UrlApi.ToListItem` | Controllers/UrlController.cs:86-95 | each listed item's `isExpired` equals the service's expiry predicate at the same `now`, and its other fields copy the record and its short link |
| `UrlApi.ListItems` | Controllers/UrlController.cs:86-95 | the projection has one item per record, in the same order |
| `UrlApi.ListingShowsEveryRecord` | Controllers/UrlController.cs:84-95 | the listing has one item per row, newest first, and includes every record, expired or not |
| `UrlApi.UrlController.GetAllUrls` | Controllers/UrlController.cs:79-104 | answers ok with the projection of the newest-first table; each flag is the expiry of the corresponding record |
| `UrlApi.UrlController.DeleteUrl` | Controllers/UrlController.cs:106-125 | ok iff a row with the code existed, not found otherwise; the table afterwards is `DeletedRows` of the old one |
| `UrlApi.SizeAccepted` | Controllers/UrlController.cs:139 | a QR size is accepted iff 50 <= size <= 1000 |
| `UrlApi.QrFileName` | Controllers/UrlController.cs:180 | the download name is "qr-code-", then the code, then ".png" |
| `UrlApi.UrlController.GetQrCode` | Controllers/UrlController.cs:127-159 | an unknown or expired code answers not found before the size is looked at; a size outside the window answers bad request; otherwise the base64 QR of the original URL with its short link and the size |
| `UrlApi.UrlController.GetQrCodeImage` | Controllers/UrlController.cs:161-187 | the same order of checks; a success is a PNG file named `qr-code-{code}.png` |

## Left out

- Persistence: Entity Framework, SQLite and `SaveChangesAsync` are an in-memory sequence of rows, and the key assignment is a counter. The unique index on `ShortCode` (Data/UrlShortenerContext.cs) is kept as the class invariant.
- UrlShortening.UrlShorteningService.ShortenUrl: the do-while retry loop has no bound in the source. The model bounds it by a `fuel` number of extra draws and answers `Unfinished` when they run out; the controller maps that to a server error. Termination of the source's loop is not claimed.
- Randomness: `System.Random` is a nondeterministic choice of an index; uniformity and the generator's state are not modelled.
- `Uri.TryCreate` is not re-implemented. It is the uninterpreted function field `isAbsoluteUri`, so no concrete string (such as "not a url") is proved to be rejected.
- Time: one clock reading `now` per request, where the source reads `DateTime.UtcNow` several times. The model has no time zones and no `DateTime` kind.
- `IsUrlExpiredAsync` is the same predicate as `IsUrlExpired` wrapped in a task, so it is not modelled separately.
- QR rendering (Services/QrCodeService.cs) is opaque: two function fields of the controller. Nothing is claimed about the image, and in particular nothing about its size, because the renderer ignores the size argument.
- Exceptions from storage or rendering, logging, async/await, JSON shaping, model-binding failures and HTTP status codes beyond the abstract `Response` datatype are not modelled.
- Concurrency: the check-then-insert race on codes and lost click updates are out of scope of a sequential model.
- UrlShortening.RepeatedClicks: promises exact counting only while the counter stays at or below `int.MaxValue`, because the source's unchecked `++` wraps past it (`Inc32`).
- `Id` is an unbounded natural number here, while the source declares it `int`.
- The listing order among records with equal `CreatedAt` is whatever the insertion sort gives. The database leaves that order unspecified.
- The browser client (wwwroot/script.js) and the start-up wiring (Program.cs) are not part of this model.
