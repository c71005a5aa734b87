/** The `ShortenedUrl` entity (Models/ShortenedUrl.cs): the one table row of the
    system, its property initialisers and the derived `ShortUrl`. */
module ShortenedUrls {
  import opened Wrappers

  /** `DateTime` is modelled by its tick count (100 ns since 0001-01-01); the
      largest representable instant is `DateTime.MaxValue`. */
  const MaxTicks: int := 3_155_378_975_999_999_999
  const TicksPerMinute: int := 600_000_000
  type Ticks = t: int | 0 <= t <= MaxTicks

  /** C# `int`. */
  const MinInt32: int := -0x8000_0000
  const MaxInt32: int := 0x7FFF_FFFF
  type Int32 = x: int | MinInt32 <= x <= MaxInt32

  /** The fixed base of every short link. */
  const BaseUrl: string := "https://short.link/"

  datatype ShortenedUrl = ShortenedUrl(
    id: nat,
    originalUrl: string,
    shortCode: string,
    createdAt: Ticks,
    expiresAt: Option<Ticks>,
    clickCount: Int32)

  /** `new ShortenedUrl()` with the clock reading `now`: the property initialisers
      give empty strings, `CreatedAt = DateTime.UtcNow`, no `ExpiresAt` and a zero
      counter; `Id` keeps its default until the database assigns one. */
  function NewShortenedUrl(now: Ticks): ShortenedUrl
  {
    ShortenedUrl(0, "", "", now, None, 0)
  }

  /** The derived, never stored, `ShortUrl` property. */
  function ShortUrl(u: ShortenedUrl): string
  {
    BaseUrl + u.shortCode
  }

  /** A fresh record starts unclicked, without an expiry, stamped with the clock. */
  lemma NewShortenedUrlDefaults(now: Ticks)
    ensures NewShortenedUrl(now).clickCount == 0
    ensures NewShortenedUrl(now).expiresAt == None
    ensures NewShortenedUrl(now).createdAt == now
    ensures NewShortenedUrl(now).originalUrl == "" && NewShortenedUrl(now).shortCode == ""
  {
  }

  /** `ShortUrl` is the base followed by the code, and stripping the base gives
      the code back. */
  lemma ShortUrlSplits(u: ShortenedUrl)
    ensures |ShortUrl(u)| == |BaseUrl| + |u.shortCode|
    ensures ShortUrl(u)[..|BaseUrl|] == BaseUrl
    ensures ShortUrl(u)[|BaseUrl|..] == u.shortCode
  {
  }

  /** Two records have the same short link exactly when they have the same code,
      so unique codes give unique links. */
  lemma ShortUrlInjective(u: ShortenedUrl, v: ShortenedUrl)
    ensures ShortUrl(u) == ShortUrl(v) <==> u.shortCode == v.shortCode
  {
    if ShortUrl(u) == ShortUrl(v) {
      ShortUrlSplits(u);
      ShortUrlSplits(v);
    }
  }
}
