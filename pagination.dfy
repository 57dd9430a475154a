/**
 * What `PdoDriver::buildPageLimits` produces: an optional `ORDER BY` clause
 * and an optional `LIMIT` clause, joined by one space.
 */
module Pagination {
  import opened Results
  import opened PhpValues
  import opened Text

  const Ascending: string := "ASC"
  const Descending: string := "DESC"

  /** `ORDER BY {field} {direction}`, empty when the field is empty; an empty direction means ascending. */
  function OrderClause(sortField: string, sortDirection: string): string {
    if EmptyString(sortField) then ""
    else "ORDER BY " + sortField + " " + (if EmptyString(sortDirection) then Ascending else sortDirection)
  }

  /** `LIMIT {limit}` or, with a page, `LIMIT {limit*page}, {limit}`; empty without a limit. */
  function LimitClause(limit: Option<int>, page: Option<int>): string {
    if EmptyInt(limit) then ""
    else if EmptyInt(page) then "LIMIT " + IntToString(limit.value)
    else "LIMIT " + IntToString(limit.value * page.value) + ", " + IntToString(limit.value)
  }

  /** The two clauses joined by a space, or whichever of them is present. */
  function SpaceJoin(a: string, b: string): string {
    if a == "" then b else if b == "" then a else a + " " + b
  }

  /** The pagination stub for the given sort and paging arguments. */
  function PageLimits(sortField: string, sortDirection: string, limit: Option<int>, page: Option<int>): string {
    SpaceJoin(OrderClause(sortField, sortDirection), LimitClause(limit, page))
  }

  /** Both clauses start with their keyword, when present. */
  lemma ClauseShapes(sortField: string, sortDirection: string, limit: Option<int>, page: Option<int>)
    ensures var o := OrderClause(sortField, sortDirection); o == [] || o[0] == 'O'
    ensures var l := LimitClause(limit, page); l == [] || l[0] == 'L'
  {
  }

  /** Appending " LIMIT ..." is appending a space and then the LIMIT clause. */
  lemma LimitSpacing(s: string, rest: string)
    ensures s + " LIMIT " + rest == s + " " + ("LIMIT " + rest)
  {
    assert " LIMIT " == " " + "LIMIT ";
  }

  /** Stripping the leading spaces of "ORDER BY ... LIMIT ..." built by appending gives the space-joined clauses. */
  lemma TrimJoined(order: string, limitClause: string)
    requires order == [] || order[0] == 'O'
    requires limitClause == [] || limitClause[0] == 'L'
    ensures TrimLeadingSpaces(if limitClause == [] then order else order + " " + limitClause) == SpaceJoin(order, limitClause)
  {
    if limitClause != [] {
      if order == [] {
        assert order + " " + limitClause == [' '] + limitClause;
        assert ([' '] + limitClause)[1..] == limitClause;
      } else {
        assert (order + " " + limitClause)[0] == 'O';
      }
    }
  }

  /** The stub never starts with a space, and the default arguments give the empty stub. */
  lemma NoLeadingSpace(sortField: string, sortDirection: string, limit: Option<int>, page: Option<int>)
    ensures var r := PageLimits(sortField, sortDirection, limit, page); |r| > 0 ==> r[0] != ' '
    ensures PageLimits("", Ascending, None, None) == ""
  {
  }

  /** The stub starts with `ORDER BY` exactly when the sort field is non-empty. */
  lemma OrderByIffSortField(sortField: string, sortDirection: string, limit: Option<int>, page: Option<int>)
    ensures var r := PageLimits(sortField, sortDirection, limit, page);
      (|r| >= 9 && r[..9] == "ORDER BY ") <==> !EmptyString(sortField)
    ensures !EmptyString(sortField) ==>
      var direction := if EmptyString(sortDirection) then Ascending else sortDirection;
      var order := "ORDER BY " + sortField + " " + direction;
      PageLimits(sortField, sortDirection, limit, page)[..|order|] == order
  {
    var r := PageLimits(sortField, sortDirection, limit, page);
    if EmptyString(sortField) {
      var l := LimitClause(limit, page);
      assert r == l;
      if |r| >= 9 {
        assert r[0] == 'L';
      }
    } else {
      assert r[..9] == "ORDER BY ";
    }
  }

  /** Without a (non-zero) limit there is no LIMIT clause: the stub is the ORDER BY clause alone. */
  lemma NoLimitNoClause(sortField: string, sortDirection: string, limit: Option<int>, page: Option<int>)
    ensures EmptyInt(limit) ==> PageLimits(sortField, sortDirection, limit, page) == OrderClause(sortField, sortDirection)
  {
  }

  /** The ORDER BY clause followed by one space, or nothing when there is no sort field. */
  function OrderPrefix(sortField: string, sortDirection: string): string {
    if EmptyString(sortField) then "" else OrderClause(sortField, sortDirection) + " "
  }

  /** A limit without a page gives `LIMIT {limit}`, after the ORDER BY clause and a space when there is a sort field. */
  lemma LimitWithoutPage(sortField: string, sortDirection: string, limit: Option<int>, page: Option<int>)
    ensures !EmptyInt(limit) && EmptyInt(page) ==>
      PageLimits(sortField, sortDirection, limit, page) == OrderPrefix(sortField, sortDirection) + "LIMIT " + IntToString(limit.value)
  {
    if !EmptyInt(limit) && EmptyInt(page) && !EmptyString(sortField) {
      LimitSpacing(OrderClause(sortField, sortDirection), IntToString(limit.value));
    }
  }

  /**
   * A limit with a page gives `LIMIT {limit*page}, {limit}`: the offset is
   * limit times page. It follows the ORDER BY clause and a space when there
   * is a sort field.
   */
  lemma OrderThenLimit(sortField: string, sortDirection: string, limit: Option<int>, page: Option<int>)
    ensures !EmptyInt(limit) && !EmptyInt(page) ==>
      PageLimits(sortField, sortDirection, limit, page) ==
        OrderPrefix(sortField, sortDirection) + "LIMIT " + (IntToString(limit.value * page.value) + ", " + IntToString(limit.value))
  {
    if !EmptyInt(limit) && !EmptyInt(page) && !EmptyString(sortField) {
      LimitSpacing(OrderClause(sortField, sortDirection), IntToString(limit.value * page.value) + ", " + IntToString(limit.value));
    }
  }

  /** The two numbers of the paged example, written in decimal. */
  lemma TwentyAndTen()
    ensures IntToString(20) == "20" && IntToString(10) == "10"
  {
    assert NatToString(20) == NatToString(2) + [DigitChar(0)];
    assert NatToString(10) == NatToString(1) + [DigitChar(0)];
  }

  /** A sorted, paged example: ("name", "", 10, 2) gives `ORDER BY name ASC LIMIT 20, 10`. */
  lemma PagedExample()
    ensures PageLimits("name", "", Some(10), Some(2)) == "ORDER BY name ASC LIMIT 20, 10"
  {
    TwentyAndTen();
    OrderThenLimit("name", "", Some(10), Some(2));
    assert OrderClause("name", "") == "ORDER BY name ASC";
  }

  /** An unsorted example with a limit only: ("", "DESC", 5, null) gives `LIMIT 5`. */
  lemma LimitOnlyExample()
    ensures PageLimits("", Descending, Some(5), None) == "LIMIT 5"
  {
    assert IntToString(5) == "5";
  }
}
