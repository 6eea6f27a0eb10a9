/** `PaginationService`: a page of documents or users with its totals. */
module PaginationService {
  import opened Wrappers
  import opened Entities
  import opened Store
  import opened Tables
  import DocumentRepository
  import UserRepository
  import DocumentMapper
  import UserMapper

  const DocumentsRetrieved := "Documents retrieved successfully"
  const UsersRetrieved := "Users retrieved successfully"
  const DocumentsFailed := "Failed to fetch paginated documents"
  const UsersFailed := "Failed to fetch paginated users"

  /** The validated request: both numbers are positive integers. */
  datatype PaginationInput = PaginationInput(page: int, limit: int)

  predicate ValidInput(input: PaginationInput) {
    input.page >= 1 && input.limit >= 1
  }

  /** `(page - 1) * limit`: never negative for a validated request. */
  function Offset(page: int, limit: int): (offset: int)
    ensures page >= 1 && limit >= 0 ==> offset >= 0
  {
    if page >= 1 && limit >= 0 then MulMono(page - 1, 0, limit); (page - 1) * limit
    else (page - 1) * limit
  }

  /** `Math.ceil(totalItems / limit)`: the fewest pages of `limit` rows that hold all
      the rows. */
  function TotalPages(totalItems: nat, limit: int): (pages: nat)
    requires limit >= 1
    ensures pages * limit >= totalItems
    ensures totalItems > 0 ==> pages * limit - limit < totalItems
    ensures totalItems == 0 <==> pages == 0
  {
    (totalItems + limit - 1) / limit
  }

  /** Consecutive pages are adjacent windows. */
  lemma NextPageFollows(page: int, limit: int)
    ensures Offset(page + 1, limit) == Offset(page, limit) + limit
  {
  }

  /** A page past the last one starts at or past the end of the table. */
  lemma {:induction false} PastLastPageEmpty(totalItems: nat, page: int, limit: int)
    requires page >= 1 && limit >= 1 && page > TotalPages(totalItems, limit)
    ensures Offset(page, limit) >= totalItems
  {
    var pages := TotalPages(totalItems, limit);
    MulMono(page - 1, pages, limit);
  }

  lemma {:induction false} MulMono(a: int, b: nat, c: nat)
    requires a >= b
    ensures a * c >= b * c
    decreases c
  {
    if c > 0 {
      MulMono(a, b, c - 1);
      assert a * c == a * (c - 1) + a;
      assert b * c == b * (c - 1) + b;
    }
  }

  datatype Paginated<T> = Paginated(
    data: seq<T>,
    currentPage: int,
    totalPages: int,
    totalItems: int,
    message: string)

  /** `getPaginatedDocuments`: the rows from the page's offset, mapped in order, with the
      page echoed and the totals of the table; a thrown repository error (`storeFault`)
      becomes the fixed failure. */
  function GetPaginatedDocuments(db: Database, input: PaginationInput, storeFault: bool)
    : (r: Either<Paginated<DocumentMapper.DocumentDTO>>)
    requires ValidInput(input)
    reads db
    ensures storeFault ==> r == Failure(DocumentsFailed)
    ensures !storeFault ==> r.Success?
    ensures r.Success? ==>
      var offset := Offset(input.page, input.limit);
      && r.value.currentPage == input.page
      && r.value.totalItems == |db.documents|
      && r.value.totalPages == TotalPages(|db.documents|, input.limit)
      && r.value.message == DocumentsRetrieved
      && |r.value.data| == (if offset >= |db.documents| then 0 else Min(input.limit, |db.documents| - offset))
      && |r.value.data| <= input.limit
      && (offset + input.limit <= |db.documents| ==> |r.value.data| == input.limit)
      && (offset >= |db.documents| ==> r.value.data == [])
      && forall k :: 0 <= k < |r.value.data| ==>
           offset + k < |db.documents|
           && r.value.data[k] == DocumentMapper.ToDTO(db.documents[offset + k])
  {
    if storeFault then Failure(DocumentsFailed)
    else
      var offset := Offset(input.page, input.limit);
      var rows := DocumentRepository.FindPaginatedDocuments(db, input.limit, offset);
      Success(Paginated(DocumentMapper.ToDTOs(rows), input.page,
        TotalPages(DocumentRepository.CountDocuments(db), input.limit),
        DocumentRepository.CountDocuments(db), DocumentsRetrieved))
  }

  /** `getPaginatedUsers`: the same over the users table. */
  function GetPaginatedUsers(db: Database, input: PaginationInput, storeFault: bool)
    : (r: Either<Paginated<UserMapper.UserDTO>>)
    requires ValidInput(input)
    reads db
    ensures storeFault ==> r == Failure(UsersFailed)
    ensures !storeFault ==> r.Success?
    ensures r.Success? ==>
      var offset := Offset(input.page, input.limit);
      && r.value.currentPage == input.page
      && r.value.totalItems == |db.users|
      && r.value.totalPages == TotalPages(|db.users|, input.limit)
      && r.value.message == UsersRetrieved
      && |r.value.data| == (if offset >= |db.users| then 0 else Min(input.limit, |db.users| - offset))
      && |r.value.data| <= input.limit
      && (offset + input.limit <= |db.users| ==> |r.value.data| == input.limit)
      && (offset >= |db.users| ==> r.value.data == [])
      && forall k :: 0 <= k < |r.value.data| ==>
           offset + k < |db.users| && r.value.data[k] == UserMapper.ToDTO(db.users[offset + k])
  {
    if storeFault then Failure(UsersFailed)
    else
      var offset := Offset(input.page, input.limit);
      var rows := UserRepository.FindPaginatedUsers(db, input.limit, offset);
      Success(Paginated(UserMapper.ToDTOs(rows), input.page,
        TotalPages(UserRepository.CountUsers(db), input.limit),
        UserRepository.CountUsers(db), UsersRetrieved))
  }
}

/** `PaginationController`: query strings to a validated page request, and the
    outcome to an HTTP status. */
module PaginationController {
  import opened Wrappers
  import opened Text
  import opened Store
  import opened PaginationService
  import DocumentMapper
  import UserMapper

  const InvalidPage := "Invalid page number"
  const InvalidLimit := "Invalid limit number"

  // ------------------------------------------------------------ parseInt(s, 10)

  predicate IsDigit(c: char) { '0' <= c <= '9' }

  function DigitValue(c: char): nat
    requires IsDigit(c)
  {
    c as int - '0' as int
  }

  /** The string without its leading white space. */
  function TrimStart(s: string): (t: string)
    ensures |t| <= |s| && t == s[|s| - |t|..]
    ensures t != [] ==> !IsWhiteSpace(t[0])
    ensures forall k :: 0 <= k < |s| - |t| ==> IsWhiteSpace(s[k])
  {
    if s != [] && IsWhiteSpace(s[0]) then TrimStart(s[1..]) else s
  }

  /** The longest prefix made of decimal digits. */
  function DigitPrefix(s: string): (p: string)
    ensures |p| <= |s| && p == s[..|p|]
    ensures forall k :: 0 <= k < |p| ==> IsDigit(p[k])
    ensures |p| < |s| ==> !IsDigit(s[|p|])
  {
    if s != [] && IsDigit(s[0]) then [s[0]] + DigitPrefix(s[1..]) else []
  }

  /** The value of a decimal numeral, most significant digit first. */
  function NumeralValue(ds: string): nat
    requires forall k :: 0 <= k < |ds| ==> IsDigit(ds[k])
    decreases |ds|
  {
    if ds == [] then 0
    else NumeralValue(ds[..|ds| - 1]) * 10 + DigitValue(ds[|ds| - 1])
  }

  /** `parseInt(s, 10)` as section 19.2.5 of ECMA-262 describes it: leading white space
      is skipped, one sign is read, then the longest run of decimal digits; no digit
      at all gives NaN (`None`). Whatever follows the digits is ignored. */
  function ParseInt(s: string): (r: Option<int>)
    ensures r.Some? ==> var t := TrimStart(s);
      t != [] && (IsDigit(t[0]) || t[0] == '-' || t[0] == '+')
    ensures r.Some? && r.value < 0 ==> TrimStart(s) != [] && TrimStart(s)[0] == '-'
  {
    ParseTrimmed(TrimStart(s))
  }

  /** The sign and digits of `parseInt`, read from the string without its leading
      white space. */
  function ParseTrimmed(t: string): (r: Option<int>)
    ensures r.Some? ==> t != [] && (IsDigit(t[0]) || t[0] == '-' || t[0] == '+')
    ensures r.Some? && r.value < 0 ==> t != [] && t[0] == '-'
  {
    var negative := t != [] && t[0] == '-';
    var unsigned := if t != [] && (t[0] == '-' || t[0] == '+') then t[1..] else t;
    var digits := DigitPrefix(unsigned);
    if digits == [] then None
    else
      var value: int := NumeralValue(digits);
      if negative then Some(-value) else Some(value)
  }

  /** The shortest decimal numeral of `n`. */
  function Decimal(n: nat): (s: string)
    ensures s != [] && forall k :: 0 <= k < |s| ==> IsDigit(s[k])
    decreases n
  {
    var last := ['0' + (n % 10) as char];
    if n < 10 then last else Decimal(n / 10) + last
  }

  lemma {:induction false} NumeralOfDecimal(n: nat)
    ensures NumeralValue(Decimal(n)) == n
    decreases n
  {
    var s := Decimal(n);
    if n >= 10 {
      NumeralOfDecimal(n / 10);
      assert s[..|s| - 1] == Decimal(n / 10);
    }
  }

  lemma {:induction false} DigitPrefixOfNumeral(ds: string, rest: string)
    requires forall k :: 0 <= k < |ds| ==> IsDigit(ds[k])
    requires rest == [] || !IsDigit(rest[0])
    ensures DigitPrefix(ds + rest) == ds
    decreases |ds|
  {
    if ds != [] {
      assert (ds + rest)[1..] == ds[1..] + rest;
      DigitPrefixOfNumeral(ds[1..], rest);
    } else {
      assert ds + rest == rest;
    }
  }

  lemma {:induction false} TrimStartOfPadding(ws: string, t: string)
    requires forall k :: 0 <= k < |ws| ==> IsWhiteSpace(ws[k])
    requires t != [] && !IsWhiteSpace(t[0])
    ensures TrimStart(ws + t) == t
    decreases |ws|
  {
    if ws != [] {
      assert (ws + t)[1..] == ws[1..] + t;
      TrimStartOfPadding(ws[1..], t);
    } else {
      assert ws + t == t;
    }
  }

  /** The prefix rule: white space, then a numeral, then anything that does not start
      with a digit (such as ".5" or "abc") parses to the numeral's value. */
  lemma ParseIntPrefix(ws: string, n: nat, rest: string)
    requires forall k :: 0 <= k < |ws| ==> IsWhiteSpace(ws[k])
    requires rest == [] || !IsDigit(rest[0])
    ensures ParseInt(ws + Decimal(n) + rest) == Some(n)
  {
    var d := Decimal(n);
    assert ws + d + rest == ws + (d + rest);
    assert (d + rest)[0] == d[0];
    TrimStartOfPadding(ws, d + rest);
    DigitPrefixOfNumeral(d, rest);
    NumeralOfDecimal(n);
    ParseIntUnsigned(ws + d + rest);
  }

  /** Without a sign, the value is that of the leading digits. */
  lemma ParseIntUnsigned(s: string)
    requires TrimStart(s) != [] && IsDigit(TrimStart(s)[0])
    ensures ParseInt(s) == Some(NumeralValue(DigitPrefix(TrimStart(s))))
  {
  }

  /** The sign rule: white space, a sign, then a numeral and anything not starting with
      a digit parses to the signed value ("+12" is 12, "-3" is -3). */
  lemma ParseIntSigned(ws: string, sign: char, n: nat, rest: string)
    requires forall k :: 0 <= k < |ws| ==> IsWhiteSpace(ws[k])
    requires sign == '+' || sign == '-'
    requires rest == [] || !IsDigit(rest[0])
    ensures var v: int := n;
      ParseInt(ws + [sign] + Decimal(n) + rest) == Some(if sign == '-' then -v else v)
  {
    var d := Decimal(n);
    var body := [sign] + (d + rest);
    var s := ws + [sign] + d + rest;
    assert s == ws + body;
    TrimStartOfPadding(ws, body);
    SignedDigits(sign, d, rest);
    NumeralOfDecimal(n);
    ParseIntAfterSign(s, body, sign, d, n);
  }

  /** The digits after a sign are the numeral, when nothing digit-like follows it. */
  lemma SignedDigits(sign: char, d: string, rest: string)
    requires d != [] && forall k :: 0 <= k < |d| ==> IsDigit(d[k])
    requires rest == [] || !IsDigit(rest[0])
    ensures ([sign] + (d + rest))[0] == sign
    ensures DigitPrefix(([sign] + (d + rest))[1..]) == d
  {
    assert ([sign] + (d + rest))[1..] == d + rest;
    DigitPrefixOfNumeral(d, rest);
  }

  /** After a sign, the value is that of the digits that follow, negated for '-'. */
  lemma ParseIntAfterSign(s: string, t: string, sign: char, ds: string, n: nat)
    requires TrimStart(s) == t && t != [] && t[0] == sign && (sign == '-' || sign == '+')
    requires DigitPrefix(t[1..]) == ds && ds != [] && NumeralValue(ds) == n
    ensures var v: int := n; ParseInt(s) == Some(if sign == '-' then -v else v)
  {
    SignedValue(t, sign, ds, n);
  }

  /** The same rule on the trimmed string. */
  lemma SignedValue(t: string, sign: char, ds: string, n: nat)
    requires t != [] && t[0] == sign && (sign == '-' || sign == '+')
    requires DigitPrefix(t[1..]) == ds && ds != [] && NumeralValue(ds) == n
    ensures var v: int := n; ParseTrimmed(t) == Some(if sign == '-' then -v else v)
  {
  }

  /** A sign with no digit after it is NaN. */
  lemma ParseIntLoneSign(ws: string, sign: char, rest: string)
    requires forall k :: 0 <= k < |ws| ==> IsWhiteSpace(ws[k])
    requires sign == '+' || sign == '-'
    requires rest == [] || !IsDigit(rest[0])
    ensures ParseInt(ws + [sign] + rest).None?
  {
    var body := [sign] + rest;
    assert ws + [sign] + rest == ws + body;
    TrimStartOfPadding(ws, body);
    assert body[1..] == rest;
  }

  /** A string whose first non-blank character is neither a sign nor a digit is NaN. */
  lemma ParseIntNaN(s: string)
    requires var t := TrimStart(s); t == [] || (!IsDigit(t[0]) && t[0] != '-' && t[0] != '+')
    ensures ParseInt(s).None?
  {
  }

  // ------------------------------------------------------------ validation

  /** `isNaN(n) || n <= 0` fails; anything else is a usable count. */
  predicate PositiveNumber(n: Option<int>) {
    n.Some? && n.value > 0
  }

  /** `validatePaginationParams`: the page is checked before the limit, and the parsed
      numbers are returned unchanged. */
  function ValidatePaginationParams(page: string, limit: string): (r: Result<PaginationInput>)
    ensures !PositiveNumber(ParseInt(page)) ==> r == Err(InvalidPage)
    ensures PositiveNumber(ParseInt(page)) && !PositiveNumber(ParseInt(limit)) ==>
      r == Err(InvalidLimit)
    ensures r.Ok? <==> PositiveNumber(ParseInt(page)) && PositiveNumber(ParseInt(limit))
    ensures r.Ok? ==>
      (r.value == PaginationInput(ParseInt(page).value, ParseInt(limit).value)
       && ValidInput(r.value))
  {
    var p := ParseInt(page);
    var l := ParseInt(limit);
    if !PositiveNumber(p) then Err(InvalidPage)
    else if !PositiveNumber(l) then Err(InvalidLimit)
    else Ok(PaginationInput(p.value, l.value))
  }

  /** The query string: `None` is an absent parameter. */
  datatype PageQuery = PageQuery(page: Option<string>, limit: Option<string>)

  /** `const { page = "1", limit = "10" } = req.query`: a default replaces only an
      absent value, so an empty string is kept (and then rejected). */
  function Parameters(q: PageQuery): (r: Result<PaginationInput>)
    ensures q.page.Some? && q.limit.Some? ==>
      r == ValidatePaginationParams(q.page.value, q.limit.value)
    ensures q.page.None? ==> r.Ok? || r == Err(InvalidLimit)
    ensures q.page.None? && q.limit.None? ==> r == Ok(PaginationInput(1, 10))
    ensures q.page == Some("") ==> r == Err(InvalidPage)
    ensures q.page.Some? && q.limit.None? ==> r == ValidatePaginationParams(q.page.value, "10")
    ensures q.page.None? && q.limit.Some? ==> r == ValidatePaginationParams("1", q.limit.value)
  {
    ParseIntPrefix("", 1, "");
    assert "" + Decimal(1) + "" == "1";
    ParseIntPrefix("", 10, "");
    assert "" + Decimal(10) + "" == "10";
    ParseIntNaN("");
    ValidatePaginationParams(if q.page.Some? then q.page.value else "1",
      if q.limit.Some? then q.limit.value else "10")
  }

  /** The response: a status and either the payload or the error text. */
  datatype Reply<T> = Reply(status: int, body: Either<T>)

  /** `getPaginatedDocuments`: a thrown validation error is 500, a service failure 400,
      a page 200. */
  function GetPaginatedDocuments(db: Database, q: PageQuery, storeFault: bool)
    : (r: Reply<Paginated<DocumentMapper.DocumentDTO>>)
    reads db
    ensures Parameters(q).Err? ==> r == Reply(500, Failure(Parameters(q).message))
    ensures Parameters(q).Ok? && storeFault ==> r == Reply(400, Failure(DocumentsFailed))
    ensures Parameters(q).Ok? && !storeFault ==>
      r == Reply(200, PaginationService.GetPaginatedDocuments(db, Parameters(q).value, false))
  {
    match Parameters(q)
    case Err(m) => Reply(500, Failure(m))
    case Ok(input) =>
      var result := PaginationService.GetPaginatedDocuments(db, input, storeFault);
      if result.Failure? then Reply(400, Failure(result.error)) else Reply(200, result)
  }

  /** `getPaginatedUsers`: the same mapping. */
  function GetPaginatedUsers(db: Database, q: PageQuery, storeFault: bool)
    : (r: Reply<Paginated<UserMapper.UserDTO>>)
    reads db
    ensures Parameters(q).Err? ==> r == Reply(500, Failure(Parameters(q).message))
    ensures Parameters(q).Ok? && storeFault ==> r == Reply(400, Failure(UsersFailed))
    ensures Parameters(q).Ok? && !storeFault ==>
      r == Reply(200, PaginationService.GetPaginatedUsers(db, Parameters(q).value, false))
  {
    match Parameters(q)
    case Err(m) => Reply(500, Failure(m))
    case Ok(input) =>
      var result := PaginationService.GetPaginatedUsers(db, input, storeFault);
      if result.Failure? then Reply(400, Failure(result.error)) else Reply(200, result)
  }
}
