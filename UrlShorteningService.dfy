/** The URL-shortening domain service (Services/UrlShorteningService.cs) over an
    in-memory `ShortenedUrls` table. The table is a sequence of rows in storage
    order; `FindByCode` plays the part of `FirstOrDefaultAsync(u => u.ShortCode == c)`
    and the unique index on `ShortCode` is the class invariant. */
module UrlShortening {
  import opened Wrappers
  import opened ShortenedUrls

  /** The 62 symbols a short code is drawn from, and the code length. */
  const Alphabet: string := "ABCDEFGHIJKLMNOPQRSTUVWXYZabcdefghijklmnopqrstuvwxyz0123456789"
  const CodeLength: nat := 7

  const InvalidUrlFormat: string := "Invalid URL format"

  /** What `ShortenUrlAsync` can end in besides a record: the `ArgumentException`
      it throws for a malformed URL, or the model's retry budget running out
      where the source would keep drawing codes. */
  datatype ServiceError = ArgumentError(message: string) | Unfinished

  predicate IsAsciiAlphanumeric(c: char)
  {
    'A' <= c <= 'Z' || 'a' <= c <= 'z' || '0' <= c <= '9'
  }

  /** A well-formed short code: seven symbols of the alphabet. */
  predicate IsShortCode(s: string)
  {
    |s| == CodeLength && forall i :: 0 <= i < |s| ==> s[i] in Alphabet
  }

  /** `IsUrlExpired`: a record expires strictly after its `ExpiresAt`; a record
      without one never expires. */
  predicate IsUrlExpired(u: ShortenedUrl, now: Ticks)
  {
    u.expiresAt.Some? && now > u.expiresAt.value
  }

  /** The unique index on `ShortCode`. */
  ghost predicate UniqueCodes(rows: seq<ShortenedUrl>)
  {
    forall i, j :: 0 <= i < j < |rows| ==> rows[i].shortCode != rows[j].shortCode
  }

  /** Identity keys are handed out in increasing order. */
  ghost predicate IdsIncreasing(rows: seq<ShortenedUrl>)
  {
    forall i, j :: 0 <= i < j < |rows| ==> rows[i].id < rows[j].id
  }

  /** `FirstOrDefault(u => u.ShortCode == code)`, as the position of the row. */
  function FindByCode(rows: seq<ShortenedUrl>, code: string): (r: Option<nat>)
    ensures r.Some? ==> r.value < |rows| && rows[r.value].shortCode == code
    ensures r.Some? ==> forall j :: 0 <= j < r.value ==> rows[j].shortCode != code
    ensures r.None? ==> forall j :: 0 <= j < |rows| ==> rows[j].shortCode != code
  {
    if rows == [] then None
    else if rows[0].shortCode == code then Some(0)
    else match FindByCode(rows[1..], code)
      case None => None
      case Some(i) => Some(i + 1)
  }

  /** What `GetOriginalUrlAsync` returns: the record with the code, hidden when it
      has expired. "No such code" and "expired" both give `None`. */
  function Resolve(rows: seq<ShortenedUrl>, code: string, now: Ticks): (r: Option<ShortenedUrl>)
    requires UniqueCodes(rows)
    ensures r.Some? ==> r.value in rows && r.value.shortCode == code && !IsUrlExpired(r.value, now)
    ensures r.None? ==> forall i :: 0 <= i < |rows| && rows[i].shortCode == code ==> IsUrlExpired(rows[i], now)
  {
    match FindByCode(rows, code)
    case None => None
    case Some(i) => if IsUrlExpired(rows[i], now) then None else Some(rows[i])
  }

  /** C# `int` increment (`url.ClickCount++`), unchecked: it wraps from
      `int.MaxValue` to `int.MinValue`. */
  function Inc32(c: Int32): (r: Int32)
    ensures (r - c - 1) % 0x1_0000_0000 == 0
    ensures c < MaxInt32 ==> r == c + 1 && r > c
  {
    if c == MaxInt32 then MinInt32 else c + 1
  }

  /** The table after `IncrementClickCountAsync(code)`. */
  function IncrementedRows(rows: seq<ShortenedUrl>, code: string): (r: seq<ShortenedUrl>)
    ensures |r| == |rows|
    ensures forall j :: 0 <= j < |rows| ==> r[j].shortCode == rows[j].shortCode && r[j].id == rows[j].id
    ensures forall c :: FindByCode(r, c) == FindByCode(rows, c)
    ensures FindByCode(rows, code).None? ==> r == rows
    ensures FindByCode(rows, code).Some? ==>
      var i := FindByCode(rows, code).value;
      && r[i].clickCount == Inc32(rows[i].clickCount)
      && r[i] == rows[i].(clickCount := r[i].clickCount)
      && forall j :: 0 <= j < |rows| && j != i ==> r[j] == rows[j]
  {
    match FindByCode(rows, code)
    case None => rows
    case Some(i) => rows[i := rows[i].(clickCount := Inc32(rows[i].clickCount))]
  }

  /** The table after `DeleteUrlAsync(code)`. */
  function DeletedRows(rows: seq<ShortenedUrl>, code: string): (r: seq<ShortenedUrl>)
    ensures FindByCode(rows, code).None? ==> r == rows
    ensures FindByCode(rows, code).Some? ==>
      |r| == |rows| - 1 && multiset(r) + multiset{rows[FindByCode(rows, code).value]} == multiset(rows)
    ensures forall u :: u in rows && u.shortCode != code ==> u in r
    ensures forall u :: u in r ==> u in rows
    ensures UniqueCodes(rows) ==> UniqueCodes(r) && FindByCode(r, code).None?
  {
    match FindByCode(rows, code)
    case None => rows
    case Some(i) =>
      var r := rows[..i] + rows[i + 1..];
      assert rows == rows[..i] + [rows[i]] + rows[i + 1..];
      RemoveAtKeepsOrder(rows, i);
      r
  }

  /** Removing one row keeps the others in their order. */
  lemma RemoveAtKeepsOrder(rows: seq<ShortenedUrl>, i: nat)
    requires i < |rows|
    ensures var r := rows[..i] + rows[i + 1..];
      && |r| == |rows| - 1
      && (forall k :: 0 <= k < |r| ==> r[k] == rows[if k < i then k else k + 1])
      && (UniqueCodes(rows) ==> UniqueCodes(r) && forall k :: 0 <= k < |r| ==> r[k].shortCode != rows[i].shortCode)
      && (IdsIncreasing(rows) ==> IdsIncreasing(r))
  {
  }

  /** Rows ordered newest first (`OrderByDescending(u => u.CreatedAt)`). */
  ghost predicate SortedByCreatedDesc(s: seq<ShortenedUrl>)
  {
    forall i, j :: 0 <= i < j < |s| ==> s[i].createdAt >= s[j].createdAt
  }

  /** Puts `u` into a newest-first list in front of the first row not newer than it. */
  function InsertByCreatedDesc(u: ShortenedUrl, s: seq<ShortenedUrl>): (r: seq<ShortenedUrl>)
    requires SortedByCreatedDesc(s)
    ensures SortedByCreatedDesc(r)
    ensures multiset(r) == multiset(s) + multiset{u}
    ensures |r| == |s| + 1
    ensures r[0] == u || (|s| > 0 && r[0] == s[0])
  {
    if s == [] || u.createdAt >= s[0].createdAt then [u] + s
    else
      var rest := InsertByCreatedDesc(u, s[1..]);
      assert s == [s[0]] + s[1..];
      [s[0]] + rest
  }

  /** The ordering of `GetAllUrlsAsync`: every row, newest first. */
  function SortByCreatedDesc(rows: seq<ShortenedUrl>): (r: seq<ShortenedUrl>)
    ensures SortedByCreatedDesc(r)
    ensures multiset(r) == multiset(rows)
    ensures |r| == |rows|
  {
    if rows == [] then []
    else
      assert rows == [rows[0]] + rows[1..];
      InsertByCreatedDesc(rows[0], SortByCreatedDesc(rows[1..]))
  }

  /** The boundary of expiry: a record is still live at the very instant of its
      `ExpiresAt` and expired one tick later; without `ExpiresAt` it never expires. */
  lemma ExpiryBoundary(u: ShortenedUrl, now: Ticks)
    ensures u.expiresAt.None? ==> !IsUrlExpired(u, now)
    ensures u.expiresAt == Some(now) ==> !IsUrlExpired(u, now)
    ensures u.expiresAt.Some? && now >= 1 && u.expiresAt.value == now - 1 ==> IsUrlExpired(u, now)
  {
  }

  /** The symbol the alphabet holds at position `k`: the upper-case letters, then
      the lower-case letters, then the digits. */
  function SymbolAt(k: nat): char
    requires k < 62
  {
    if k < 26 then ('A' as int + k) as char
    else if k < 52 then ('a' as int + (k - 26)) as char
    else ('0' as int + (k - 52)) as char
  }

  /** A string holding the letters and digits in the order `SymbolAt` gives. */
  ghost predicate LaidOut(s: string)
  {
    |s| == 62 && forall j :: 0 <= j < |s| ==> s[j] == SymbolAt(j)
  }

  /** The source's alphabet literal is laid out that way. The solver reads a long
      literal from its end, so the front half is read as a prefix of its own. */
  lemma AlphabetLayout()
    ensures LaidOut(Alphabet)
  {
    var front := Alphabet[..31];
    assert front == "ABCDEFGHIJKLMNOPQRSTUVWXYZabcde";
    forall j | 0 <= j < |Alphabet| ensures Alphabet[j] == SymbolAt(j) {
      if j < 31 {
        assert Alphabet[j] == front[j];
      }
    }
  }

  /** A string laid out that way holds exactly the ASCII letters and digits. */
  lemma LaidOutIsAlphanumeric(s: string)
    requires LaidOut(s)
    ensures forall c :: c in s <==> IsAsciiAlphanumeric(c)
  {
    forall c | IsAsciiAlphanumeric(c) ensures c in s {
      var j := if 'A' <= c <= 'Z' then c as int - 'A' as int
        else if 'a' <= c <= 'z' then c as int - 'a' as int + 26
        else c as int - '0' as int + 52;
      assert s[j] == c;
    }
  }

  /** The alphabet is exactly the 62 ASCII letters and digits. */
  lemma AlphabetIsAlphanumeric()
    ensures |Alphabet| == 62
    ensures forall c :: c in Alphabet <==> IsAsciiAlphanumeric(c)
  {
    AlphabetLayout();
    LaidOutIsAlphanumeric(Alphabet);
  }

  /** Looking a new code up in a table extended by a row carrying it finds that row. */
  lemma {:induction false} FindByCodeAppended(rows: seq<ShortenedUrl>, u: ShortenedUrl)
    requires FindByCode(rows, u.shortCode).None?
    ensures FindByCode(rows + [u], u.shortCode) == Some(|rows|)
  {
    if rows != [] {
      assert (rows + [u])[1..] == rows[1..] + [u];
      FindByCodeAppended(rows[1..], u);
    }
  }

  /** A record inserted without an expiry resolves to itself at any later time. */
  lemma ResolveAfterShorten(rows: seq<ShortenedUrl>, u: ShortenedUrl, now: Ticks)
    requires UniqueCodes(rows) && FindByCode(rows, u.shortCode).None?
    requires u.expiresAt.None?
    ensures UniqueCodes(rows + [u])
    ensures Resolve(rows + [u], u.shortCode, now) == Some(u)
  {
    FindByCodeAppended(rows, u);
  }

  /** A record past its expiry no longer resolves, yet it is still in the listing. */
  lemma ExpiredIsHiddenButListed(rows: seq<ShortenedUrl>, i: nat, now: Ticks)
    requires UniqueCodes(rows) && i < |rows| && IsUrlExpired(rows[i], now)
    ensures Resolve(rows, rows[i].shortCode, now) == None
    ensures rows[i] in SortByCreatedDesc(rows)
  {
    assert rows[i] in multiset(rows);
  }

  /** The table after `n` sequential `IncrementClickCountAsync(code)` calls. */
  function ClickedRows(rows: seq<ShortenedUrl>, code: string, n: nat): seq<ShortenedUrl>
  {
    if n == 0 then rows else IncrementedRows(ClickedRows(rows, code, n - 1), code)
  }

  /** `n` clicks on an existing code raise its counter by exactly `n` (as long as it
      stays below `int.MaxValue`) and change nothing else. */
  lemma {:induction false} RepeatedClicks(rows: seq<ShortenedUrl>, code: string, n: nat)
    requires FindByCode(rows, code).Some?
    requires rows[FindByCode(rows, code).value].clickCount + n <= MaxInt32
    ensures var i := FindByCode(rows, code).value;
      var r := ClickedRows(rows, code, n);
      && |r| == |rows|
      && FindByCode(r, code) == Some(i)
      && r[i] == rows[i].(clickCount := rows[i].clickCount + n)
      && forall j :: 0 <= j < |rows| && j != i ==> r[j] == rows[j]
  {
    if n > 0 {
      RepeatedClicks(rows, code, n - 1);
    }
  }

  /** A second delete of the same code finds nothing and changes nothing. */
  lemma DeleteTwice(rows: seq<ShortenedUrl>, code: string)
    requires UniqueCodes(rows)
    ensures FindByCode(DeletedRows(rows, code), code).None?
    ensures DeletedRows(DeletedRows(rows, code), code) == DeletedRows(rows, code)
  {
  }

  /** The ShortenedUrls table together with the service's operations on it. */
  class UrlShorteningService {
    /** The rows of the table, in storage order. */
    var rows: seq<ShortenedUrl>
    /** The identity the database gives the next inserted row. */
    var nextId: nat
    /** `Uri.TryCreate(s, UriKind.Absolute, out _)`, which the model does not re-implement. */
    const isAbsoluteUri: string -> bool

    ghost predicate Valid()
      reads this
    {
      && UniqueCodes(rows)
      && IdsIncreasing(rows)
      && (forall u :: u in rows ==> IsShortCode(u.shortCode) && u.id < nextId)
    }

    constructor(isAbsoluteUri: string -> bool)
      ensures Valid()
      ensures rows == [] && nextId == 1 && this.isAbsoluteUri == isAbsoluteUri
    {
      rows := [];
      nextId := 1;
      this.isAbsoluteUri := isAbsoluteUri;
    }

    /** `_random.Next(maxValue)`: some number in [0, maxValue). */
    method RandomNext(maxValue: int) returns (r: int)
      requires maxValue > 0
      ensures 0 <= r < maxValue
    {
      r :| 0 <= r < maxValue;
    }

    /** `GenerateShortCode`: seven independent draws from the alphabet. */
    method GenerateShortCode() returns (code: string)
      ensures IsShortCode(code)
    {
      code := "";
      for k := 0 to CodeLength
        invariant |code| == k
        invariant forall i :: 0 <= i < k ==> code[i] in Alphabet
      {
        var r := RandomNext(|Alphabet|);
        code := code + [Alphabet[r]];
      }
    }

    /** `ShortenUrlAsync`: validate, draw codes until one is free, insert. The
        do-while retry loop is bounded by `fuel` extra draws; when they run out
        the model gives `Unfinished` where the source would keep drawing. */
    method ShortenUrl(originalUrl: string, expiresAt: Option<Ticks>, now: Ticks, fuel: nat)
      returns (result: Result<ShortenedUrl, ServiceError>)
      requires Valid()
      modifies this
      ensures Valid()
      ensures !isAbsoluteUri(originalUrl) ==> result == Failure(ArgumentError(InvalidUrlFormat))
      ensures isAbsoluteUri(originalUrl) ==> result.Success? || result == Failure(Unfinished)
      ensures result.Failure? ==> rows == old(rows) && nextId == old(nextId)
      ensures result.Success? ==>
        var u := result.value;
        && rows == old(rows) + [u]
        && nextId == old(nextId) + 1
        && u.id == old(nextId)
        && u.originalUrl == originalUrl
        && IsShortCode(u.shortCode)
        && FindByCode(old(rows), u.shortCode).None?
        && u.createdAt == now
        && u.expiresAt == expiresAt
        && u.clickCount == 0
    {
      if !isAbsoluteUri(originalUrl) {
        return Failure(ArgumentError(InvalidUrlFormat));
      }
      var shortCode := GenerateShortCode();
      var retries := 0;
      while FindByCode(rows, shortCode).Some?
        invariant IsShortCode(shortCode)
        invariant retries <= fuel
        invariant rows == old(rows) && nextId == old(nextId)
        decreases fuel - retries
      {
        if retries == fuel {
          return Failure(Unfinished);
        }
        shortCode := GenerateShortCode();
        retries := retries + 1;
      }
      var shortenedUrl := NewShortenedUrl(now).(originalUrl := originalUrl, shortCode := shortCode, expiresAt := expiresAt);
      // SaveChangesAsync assigns the identity key.
      shortenedUrl := shortenedUrl.(id := nextId);
      rows := rows + [shortenedUrl];
      nextId := nextId + 1;
      result := Success(shortenedUrl);
    }

    /** `GetOriginalUrlAsync`. */
    method GetOriginalUrl(shortCode: string, now: Ticks) returns (url: Option<ShortenedUrl>)
      requires Valid()
      ensures url == Resolve(rows, shortCode, now)
    {
      var found := FindByCode(rows, shortCode);
      if found.Some? && IsUrlExpired(rows[found.value], now) {
        return None;
      }
      url := if found.Some? then Some(rows[found.value]) else None;
    }

    /** `DeleteUrlAsync`: reports whether a row was removed. */
    method DeleteUrl(shortCode: string) returns (deleted: bool)
      requires Valid()
      modifies this
      ensures Valid()
      ensures deleted <==> FindByCode(old(rows), shortCode).Some?
      ensures rows == DeletedRows(old(rows), shortCode)
      ensures nextId == old(nextId)
    {
      var found := FindByCode(rows, shortCode);
      if found.Some? {
        RemoveAtKeepsOrder(rows, found.value);
        rows := DeletedRows(rows, shortCode);
        return true;
      }
      return false;
    }

    /** `IncrementClickCountAsync`: bumps the counter of the row with the code,
        expired or not; a missing code is ignored. */
    method IncrementClickCount(shortCode: string)
      requires Valid()
      modifies this
      ensures Valid()
      ensures rows == IncrementedRows(old(rows), shortCode)
      ensures nextId == old(nextId)
    {
      var found := FindByCode(rows, shortCode);
      if found.Some? {
        var i := found.value;
        rows := rows[i := rows[i].(clickCount := Inc32(rows[i].clickCount))];
      }
    }

    /** `GetAllUrlsAsync`: every row, newest first. */
    method GetAllUrls() returns (urls: seq<ShortenedUrl>)
      ensures urls == SortByCreatedDesc(rows)
      ensures SortedByCreatedDesc(urls) && multiset(urls) == multiset(rows)
    {
      urls := SortByCreatedDesc(rows);
    }
  }
}
