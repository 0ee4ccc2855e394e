/** The page query of internal/utils/pagination.go: three string parameters
    parsed into a size, a page and an ordering, with the offset and has-more
    arithmetic built on them. */
module Pagination {
  import opened Base
  import opened AppErrors

  const DefaultSize := 2

  // ----- strconv.Atoi ---------------------------------------------------

  predicate IsDigit(c: char)
  {
    '0' <= c <= '9'
  }

  predicate AllDigits(s: string)
  {
    forall i :: 0 <= i < |s| ==> IsDigit(s[i])
  }

  /** What `strconv.Atoi` accepts: one optional sign, then at least one digit. */
  predicate IsDecimal(s: string)
  {
    if |s| > 0 && (s[0] == '+' || s[0] == '-') then |s| > 1 && AllDigits(s[1..])
    else |s| > 0 && AllDigits(s)
  }

  function DigitsValue(s: string): nat
    requires AllDigits(s)
  {
    if s == [] then 0 else DigitsValue(s[..|s| - 1]) * 10 + (s[|s| - 1] as int - '0' as int)
  }

  /** `strconv.Atoi` without its overflow check: `None` is the syntax error. */
  function Atoi(s: string): (r: Option<int>)
    ensures r.Some? <==> IsDecimal(s)
    ensures r.Some? && AllDigits(s) ==> r.value == DigitsValue(s)
    ensures r.Some? && s[0] == '-' ==> r.value <= 0 && r.value == -(DigitsValue(s[1..]) as int)
    ensures r.Some? && s[0] == '+' ==> r.value >= 0 && r.value == DigitsValue(s[1..])
  {
    if !IsDecimal(s) then None
    else if s[0] == '-' then Some(-(DigitsValue(s[1..]) as int))
    else if s[0] == '+' then Some(DigitsValue(s[1..]))
    else Some(DigitsValue(s))
  }

  /** The error `strconv.Atoi` returns for a string it refuses. */
  function AtoiError(s: string): GoError
  {
    Foreign("strconv.Atoi: parsing \"" + s + "\": invalid syntax")
  }

  /** Decimal digits of a natural number, most significant first. */
  function NatDigits(n: nat): string
  {
    if n < 10 then [('0' as int + n) as char]
    else NatDigits(n / 10) + [('0' as int + n % 10) as char]
  }

  /** `strconv.Itoa`: the canonical decimal text of an integer. */
  function Itoa(n: int): string
  {
    if n < 0 then "-" + NatDigits(-n) else NatDigits(n)
  }

  lemma {:induction false} NatDigitsValue(n: nat)
    ensures |NatDigits(n)| > 0 && AllDigits(NatDigits(n)) && DigitsValue(NatDigits(n)) == n
    ensures NatDigits(n)[0] != '-' && NatDigits(n)[0] != '+'
  {
    if n >= 10 {
      NatDigitsValue(n / 10);
      var p := NatDigits(n / 10);
      var s := p + [('0' as int + n % 10) as char];
      assert s[..|s| - 1] == p;
      assert s[0] == p[0];
    }
  }

  /** `Atoi` reads back what `Itoa` writes, for every integer. */
  lemma {:induction false} AtoiItoa(n: int)
    ensures Atoi(Itoa(n)) == Some(n)
  {
    if n < 0 {
      NatDigitsValue(-n);
      assert Itoa(n)[1..] == NatDigits(-n);
    } else {
      NatDigitsValue(n);
    }
  }

  /** The concrete accept/reject cases the shipped tests use. */
  lemma AtoiCases()
    ensures Atoi("2") == Some(2) && Atoi("10") == Some(10) && Atoi("-1") == Some(-1)
    ensures Atoi("wevw").None? && Atoi("--1").None? && Atoi("").None?
  {
    assert AllDigits("2") && AllDigits("10") && AllDigits("1");
    assert "10"[..1] == "1";
    assert "-1"[1..] == "1";
    assert !IsDigit('w') && !IsDigit('-');
    assert "--1"[1..][0] == '-';
  }

  // ----- the query value and its parsing --------------------------------

  /** The three fields of a `PaginationQuery`, as a value (it is also the
      cache key of a page). */
  datatype Query = Query(size: int, page: int, orderBy: string)

  /** The size `SetSize` stores: "" and "0" mean the default, anything else
      must parse. */
  function SizeSetting(s: string): (r: Option<int>)
    ensures r.Some? <==> s == "" || s == "0" || IsDecimal(s)
    ensures s == "" || s == "0" ==> r == Some(DefaultSize)
    ensures s != "" && s != "0" ==> r == Atoi(s)
  {
    if s == "" || s == "0" then Some(DefaultSize) else Atoi(s)
  }

  /** `GetPaginationFromCtx` on values: page first, then size, then the
      ordering, starting from the zero query; the first parse failure wins. */
  function FromStrings(page: string, size: string, orderBy: string): Option<Query>
  {
    var afterPage :=
      if page == "" then Some(Query(0, 0, ""))
      else if Atoi(page).Some? then Some(Query(0, Atoi(page).value, ""))
      else None;
    if afterPage.None? then None
    else if SizeSetting(size).None? then None
    else Some(afterPage.value.(size := SizeSetting(size).value, orderBy := orderBy))
  }

  /** Parsing fails exactly when a non-empty page or a size other than "" and
      "0" is not a decimal; otherwise the page is the parsed page (0 when
      absent), the size the parsed or default size, and the ordering verbatim. */
  lemma FromStringsCharacterised(page: string, size: string, orderBy: string)
    ensures FromStrings(page, size, orderBy).None?
        <==> (page != "" && !IsDecimal(page)) || SizeSetting(size).None?
    ensures FromStrings(page, size, orderBy).Some? ==>
      FromStrings(page, size, orderBy).value
        == Query(SizeSetting(size).value, if page == "" then 0 else Atoi(page).value, orderBy)
  {
  }

  /** `SetPage("")` zeroes the size, but `SetSize` always runs next and
      overwrites it, so an absent page is only visible as page 0. */
  lemma EmptyPageMasked(size: string, orderBy: string)
    requires SizeSetting(size).Some?
    ensures FromStrings("", size, orderBy) == Some(Query(SizeSetting(size).value, 0, orderBy))
    ensures FromStrings("", size, orderBy) == FromStrings("0", size, orderBy)
  {
    assert AllDigits("0");
  }

  /** The expectations of the shipped `GetPaginationFromCtx` tests. */
  lemma FromStringsCases()
    ensures FromStrings("0", "0", "") == Some(Query(2, 0, ""))
    ensures FromStrings("1", "0", "") == Some(Query(2, 1, ""))
    ensures FromStrings("2", "0", "") == Some(Query(2, 2, ""))
  {
    assert AllDigits("0") && AllDigits("1") && AllDigits("2");
  }

  /** A size string other than "" and "0" that still reads as zero: the
      default does not guard against a zero page size. */
  lemma ZeroSizeReachable()
    ensures FromStrings("1", "00", "") == Some(Query(0, 1, ""))
  {
    assert AllDigits("1") && AllDigits("00");
    assert "00"[..1] == "0";
  }

  // ----- offset, has-more and total pages -------------------------------

  /** `GetOffset`: how many rows precede the page. */
  function Offset(q: Query): int
  {
    if q.page == 0 then 0 else (q.page - 1) * q.size
  }

  /** Pages 0 and 1 both start at row 0, and from page 1 on each page starts
      exactly `size` rows after the previous one. */
  lemma OffsetPages(q: Query)
    requires q.page >= 1
    ensures Offset(q.(page := 0)) == Offset(q.(page := 1)) == 0
    ensures Offset(q.(page := q.page + 1)) == Offset(q) + q.size
    ensures q.size >= 0 ==> Offset(q) >= 0
  {
  }

  /** The expectations of the shipped `GetOffset` tests. */
  lemma OffsetCases()
    ensures Offset(Query(0, 0, "")) == 0 && Offset(Query(1, 1, "")) == 0
    ensures Offset(Query(1, 2, "")) == 1 && Offset(Query(10, 10, "")) == 90
  {
  }

  /** Go's integer division, which truncates toward zero. */
  function TruncDiv(a: int, b: int): (r: int)
    requires b != 0
    ensures a >= 0 && b > 0 ==> r == a / b
  {
    var q := (if a < 0 then -a else a) / (if b < 0 then -b else b);
    if (a < 0) != (b < 0) then -q else q
  }

  /** `GetHasMore`: false on a zero page size; otherwise, for a non-negative
      count, true iff a whole page lies beyond `currentPage` full pages. */
  function GetHasMore(currentPage: int, totalCount: int, pageSize: int): (r: bool)
    ensures pageSize == 0 ==> !r
    ensures pageSize > 0 && totalCount >= 0 ==> (r <==> (currentPage + 1) * pageSize <= totalCount)
  {
    if pageSize == 0 then false
    else
      var d := TruncDiv(totalCount, pageSize);
      assert pageSize > 0 && totalCount >= 0 ==> (currentPage < d <==> (currentPage + 1) * pageSize <= totalCount) by {
        if pageSize > 0 && totalCount >= 0 {
          HasMoreArith(currentPage, totalCount, pageSize);
        }
      }
      currentPage < d
  }

  lemma HasMoreArith(c: int, t: nat, p: int)
    requires p > 0
    ensures c < t / p <==> (c + 1) * p <= t
  {
    var d := t / p;
    assert t == d * p + t % p && 0 <= t % p < p;
    if c < d {
      assert (c + 1) * p <= d * p;
    } else {
      assert (c + 1) * p >= (d + 1) * p;
    }
  }

  /** The expectations of the shipped `GetHasMore` tests. */
  lemma HasMoreCases()
    ensures !GetHasMore(0, 0, 0) && !GetHasMore(1, 1, 2)
    ensures GetHasMore(1, 10, 3) && !GetHasMore(9, 10, 3)
  {
  }

  /** `GetTotalPages` for a positive page size: the least page count that
      covers every row. */
  function GetTotalPages(totalCount: int, pageSize: int): (r: int)
    requires pageSize > 0
    ensures (r - 1) * pageSize < totalCount <= r * pageSize
  {
    var f := (-totalCount) / pageSize;
    assert f * pageSize <= -totalCount < (f + 1) * pageSize by {
      assert -totalCount == f * pageSize + (-totalCount) % pageSize;
    }
    -f
  }

  /** The expectations of the shipped `GetTotalPages` tests. */
  lemma TotalPagesCases()
    ensures GetTotalPages(0, 1) == 0 && GetTotalPages(1, 2) == 1 && GetTotalPages(10, 3) == 4
  {
  }

  // ----- the mutable query ----------------------------------------------

  /** `PaginationQuery`: the setters assign the fields in place. */
  class PaginationQuery {
    var size: int
    var page: int
    var orderBy: string

    constructor ()
      ensures size == 0 && page == 0 && orderBy == ""
    {
      size := 0;
      page := 0;
      orderBy := "";
    }

    function Value(): Query
      reads this
    {
      Query(size, page, orderBy)
    }

    function GetSize(): int reads this { size }
    function GetPage(): int reads this { page }
    function GetLimit(): int reads this { size }
    function GetOffset(): int reads this { Offset(Value()) }

    /** Stores the ordering verbatim. */
    method SetOrderBy(orderByQuery: string)
      modifies this
      ensures Value() == old(Value()).(orderBy := orderByQuery)
    {
      orderBy := orderByQuery;
    }

    /** "" and "0" store the default size; a decimal is stored as parsed;
        anything else leaves the query alone and returns the parse error. */
    method SetSize(sizeQuery: string) returns (err: Option<GoError>)
      modifies this
      ensures err.None? <==> SizeSetting(sizeQuery).Some?
      ensures err.None? ==> Value() == old(Value()).(size := SizeSetting(sizeQuery).value)
      ensures err.Some? ==> Value() == old(Value()) && err == Some(AtoiError(sizeQuery))
    {
      if sizeQuery == "" {
        size := DefaultSize;
        return None;
      }
      if sizeQuery == "0" {
        size := DefaultSize;
        return None;
      }
      var n := Atoi(sizeQuery);
      if n.None? {
        return Some(AtoiError(sizeQuery));
      }
      size := n.value;
      return None;
    }

    /** "" zeroes the SIZE and leaves the page; a decimal is stored as the
        page; anything else leaves the query alone and returns the parse error. */
    method SetPage(pageQuery: string) returns (err: Option<GoError>)
      modifies this
      ensures pageQuery == "" ==> err.None? && Value() == old(Value()).(size := 0)
      ensures pageQuery != "" ==> (err.None? <==> IsDecimal(pageQuery))
      ensures pageQuery != "" && err.None? ==> Value() == old(Value()).(page := Atoi(pageQuery).value)
      ensures err.Some? ==> Value() == old(Value()) && err == Some(AtoiError(pageQuery))
    {
      if pageQuery == "" {
        size := 0;
        return None;
      }
      var n := Atoi(pageQuery);
      if n.None? {
        return Some(AtoiError(pageQuery));
      }
      page := n.value;
      return None;
    }
  }

  /** `GetPaginationFromCtx`: a fresh query built by the three setters in
      order, or no query and the first parse error. */
  method GetPaginationFromCtx(page: string, size: string, orderBy: string)
    returns (q: PaginationQuery?, err: Option<GoError>)
    ensures err.None? <==> FromStrings(page, size, orderBy).Some?
    ensures err.None? ==> q != null && fresh(q) && q.Value() == FromStrings(page, size, orderBy).value
    ensures err.Some? ==> q == null
  {
    var query := new PaginationQuery();
    err := query.SetPage(page);
    if err.Some? {
      return null, err;
    }
    err := query.SetSize(size);
    if err.Some? {
      return null, err;
    }
    query.SetOrderBy(orderBy);
    return query, None;
  }
}
