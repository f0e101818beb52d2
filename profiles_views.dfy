/**
 * `my_assignments` of profiles/views.py: a paramedic's calls, latest first,
 * one page at a time. `limit` and `offset` come from the query string
 * through Python's `int()`; if either does not parse, both fall back to
 * 10 and 0. The page is the slice [offset, offset + limit), `count` is the
 * number of matching calls, and `next_offset` is offset + limit while that
 * is below the count.
 */
module ProfilesViews {
  import opened Wrappers
  import Text
  import opened CoreModels
  import opened EmergencyModels

  const DefaultLimit: int := 10
  const DefaultOffset: int := 0

  /** CPython's default bound on the digits of a decimal `int()`
    * (`sys.get_int_max_str_digits()`): a longer number raises ValueError.
    * Underscores do not count as digits. */
  const MaxStrDigits: nat := 4300

  /** Digits, with single underscores allowed between two digits. */
  predicate IsDigitGroup(s: string)
  {
    && |s| >= 1
    && Text.IsDigit(s[0]) && Text.IsDigit(s[|s| - 1])
    && (forall i :: 0 <= i < |s| ==> Text.IsDigit(s[i]) || s[i] == '_')
    && (forall i :: 0 <= i < |s| - 1 ==> !(s[i] == '_' && s[i + 1] == '_'))
  }

  function DropUnderscores(s: string): (r: string)
    ensures |r| <= |s|
    ensures (forall i :: 0 <= i < |s| ==> Text.IsDigit(s[i]) || s[i] == '_') ==>
              forall i :: 0 <= i < |r| ==> Text.IsDigit(r[i])
  {
    if s == [] then []
    else if s[0] == '_' then DropUnderscores(s[1..])
    else [s[0]] + DropUnderscores(s[1..])
  }

  lemma DropUnderscoresOfDigits(s: string)
    requires forall i :: 0 <= i < |s| ==> Text.IsDigit(s[i])
    ensures DropUnderscores(s) == s
  {
  }

  /** The white space `int()` skips around a number: tab to carriage return,
    * space, and U+0085 and U+00A0, which it reads as spaces. Unlike
    * `str.strip()` it does not skip the separators U+001C to U+001F. */
  predicate IsNumberSpace(c: char)
  {
    9 <= c as int <= 13 || c as int == 32 || c as int == 0x85 || c as int == 0xA0
  }

  /** The text `int()` reads a number from: `s` without the white space at
    * either end. */
  function StripNumberSpace(s: string): (r: string)
    ensures r == [] || (!IsNumberSpace(r[0]) && !IsNumberSpace(r[|r| - 1]))
    ensures |r| <= |s|
    decreases |s|
  {
    if s != [] && IsNumberSpace(s[0]) then StripNumberSpace(s[1..])
    else if s != [] && IsNumberSpace(s[|s| - 1]) then StripNumberSpace(s[..|s| - 1])
    else s
  }

  /** What `StripNumberSpace` cuts off is white space: its result is the
    * slice of `s` between a white-space prefix and a white-space suffix. */
  lemma {:induction false} StripNumberSpaceRemovesSpaces(s: string)
    ensures exists lo: nat :: SpaceAround(s, lo, StripNumberSpace(s))
    decreases |s|
  {
    var r := StripNumberSpace(s);
    if s != [] && IsNumberSpace(s[0]) {
      StripNumberSpaceRemovesSpaces(s[1..]);
      var lo: nat :| SpaceAround(s[1..], lo, r);
      SpaceAroundFront(s, lo, r);
    } else if s != [] && IsNumberSpace(s[|s| - 1]) {
      StripNumberSpaceRemovesSpaces(s[..|s| - 1]);
      var lo: nat :| SpaceAround(s[..|s| - 1], lo, r);
      SpaceAroundBack(s, lo, r);
    } else {
      assert SpaceAround(s, 0, r);
    }
  }

  /** White space in front of a text keeps `r` surrounded by white space. */
  lemma SpaceAroundFront(s: string, lo: nat, r: string)
    requires s != [] && IsNumberSpace(s[0]) && SpaceAround(s[1..], lo, r)
    ensures SpaceAround(s, lo + 1, r)
  {
    assert s[1..][lo..lo + |r|] == s[lo + 1..lo + 1 + |r|];
    forall i | 0 < i < lo + 1 ensures IsNumberSpace(s[i]) {
      assert s[i] == s[1..][i - 1];
    }
    forall i | lo + 1 + |r| <= i < |s| ensures IsNumberSpace(s[i]) {
      assert s[i] == s[1..][i - 1];
    }
  }

  /** White space behind a text keeps `r` surrounded by white space. */
  lemma SpaceAroundBack(s: string, lo: nat, r: string)
    requires s != [] && IsNumberSpace(s[|s| - 1]) && SpaceAround(s[..|s| - 1], lo, r)
    ensures SpaceAround(s, lo, r)
  {
    assert s[..|s| - 1][lo..lo + |r|] == s[lo..lo + |r|];
    forall i | 0 <= i < lo ensures IsNumberSpace(s[i]) {
      assert s[i] == s[..|s| - 1][i];
    }
    forall i | lo + |r| <= i < |s| - 1 ensures IsNumberSpace(s[i]) {
      assert s[i] == s[..|s| - 1][i];
    }
  }

  /** `r` is the slice of `s` at `lo`, and everything of `s` around it is
    * white space. */
  predicate SpaceAround(s: string, lo: nat, r: string)
  {
    && lo + |r| <= |s| && r == s[lo..lo + |r|]
    && (forall i :: 0 <= i < lo ==> IsNumberSpace(s[i]))
    && (forall i :: lo + |r| <= i < |s| ==> IsNumberSpace(s[i]))
  }

  /** Python's `int(text)` on a base-10 string, `None` where it raises
    * ValueError. Non-ASCII digits are not modelled. */
  function ParseInt(text: string): (r: Option<int>)
    ensures StripNumberSpace(text) == [] ==> r.None?
    ensures r.Some? ==> var t := StripNumberSpace(text); |t| >= 1 && Text.IsDigit(t[|t| - 1]) && (r.value < 0 ==> t[0] == '-')
    ensures r.Some? ==> var t := StripNumberSpace(text);
              forall i :: 0 < i < |t| ==> Text.IsDigit(t[i]) || t[i] == '_'
  {
    var t := StripNumberSpace(text);
    if t == [] then None
    else
      var negative := t[0] == '-';
      var body := if t[0] == '-' || t[0] == '+' then t[1..] else t;
      if !IsDigitGroup(body) || |DropUnderscores(body)| > MaxStrDigits then None
      else
        Some(Signed(negative, GroupValue(body)))
  }

  function Signed(negative: bool, magnitude: nat): int
  {
    if negative then 0 - magnitude as int else magnitude
  }

  /** The magnitude `int()` reads from a digit group. */
  function GroupValue(body: string): nat
    requires IsDigitGroup(body)
  {
    var digits := DropUnderscores(body);
    assert forall i :: 0 <= i < |digits| ==> Text.IsDigit(digits[i]);
    Text.DigitsValue(digits)
  }

  /** A digit string, signed or not, has no white space to strip. */
  lemma StripSignedDigits(digits: string, negative: bool)
    requires |digits| >= 1 && forall i :: 0 <= i < |digits| ==> Text.IsDigit(digits[i])
    ensures StripNumberSpace(if negative then "-" + digits else digits) == (if negative then "-" + digits else digits)
  {
    var s := if negative then "-" + digits else digits;
    assert s[|s| - 1] == digits[|digits| - 1];
    assert negative ==> s[0] == '-';
    assert !negative ==> Text.IsDigit(s[0]);
  }

  /** `int()` does not skip the separators U+001C to U+001F, which
    * `str.strip()` removes: a number behind one raises. */
  lemma SeparatorBeforeNumberRaises(c: char, digits: string)
    requires 28 <= c as int <= 31
    requires |digits| >= 1 && forall i :: 0 <= i < |digits| ==> Text.IsDigit(digits[i])
    ensures ParseInt([c] + digits).None?
    ensures Text.Strip([c] + digits) == digits
  {
    var s := [c] + digits;
    assert s[0] == c && s[|s| - 1] == digits[|digits| - 1];
    assert StripNumberSpace(s) == s;
    assert !IsDigitGroup(s) by { assert !Text.IsDigit(s[0]); }
    Text.StripLeadingSpace(c, digits);
  }

  /** A plain digit string is a digit group worth its decimal value. */
  lemma GroupOfDigits(digits: string)
    requires |digits| >= 1 && forall i :: 0 <= i < |digits| ==> Text.IsDigit(digits[i])
    ensures IsDigitGroup(digits) && GroupValue(digits) == Text.DigitsValue(digits)
  {
    DropUnderscoresOfDigits(digits);
  }

  /** `int()` of a digit string, with or without a leading minus sign: its
    * signed value, unless it has more digits than the bound. */
  lemma ParseIntOfDigits(digits: string, negative: bool)
    requires |digits| >= 1 && forall i :: 0 <= i < |digits| ==> Text.IsDigit(digits[i])
    ensures ParseInt(if negative then "-" + digits else digits)
            == if |digits| <= MaxStrDigits then Some(Signed(negative, Text.DigitsValue(digits))) else None
  {
    StripSignedDigits(digits, negative);
    GroupOfDigits(digits);
    DropUnderscoresOfDigits(digits);
    var s := if negative then "-" + digits else digits;
    assert StripNumberSpace(s) == s;
    assert s[0] == '-' <==> negative;
    assert (if s[0] == '-' || s[0] == '+' then s[1..] else s) == digits;
  }

  /** `int()` reads back every integer as `str()` prints it, as long as it
    * has at most `MaxStrDigits` digits; a longer one raises. */
  lemma ParseIntOfIntToString(n: int)
    ensures ParseInt(Text.IntToString(n))
            == if |Text.NatToString(if n < 0 then -n else n)| <= MaxStrDigits then Some(n) else None
  {
    var m: nat := if n < 0 then -n else n;
    ParseIntOfDigits(Text.NatToString(m), n < 0);
    Text.DigitsValueOfNatToString(m);
  }

  /** A query parameter as the view reads it: `None` when absent. */
  function ParamOr(param: Option<string>, default: int): Option<int>
  {
    match param
    case None => Some(default)
    case Some(text) => ParseInt(text)
  }

  /** `limit` and `offset` after the `try`/`except ValueError`. */
  function PageParams(limitParam: Option<string>, offsetParam: Option<string>): (r: (int, int))
    ensures (ParamOr(limitParam, DefaultLimit).None? || ParamOr(offsetParam, DefaultOffset).None?) ==> r == (DefaultLimit, DefaultOffset)
    ensures ParamOr(limitParam, DefaultLimit).Some? && ParamOr(offsetParam, DefaultOffset).Some? ==>
              r == (ParamOr(limitParam, DefaultLimit).value, ParamOr(offsetParam, DefaultOffset).value)
    ensures limitParam.None? && offsetParam.None? ==> r == (DefaultLimit, DefaultOffset)
  {
    match (ParamOr(limitParam, DefaultLimit), ParamOr(offsetParam, DefaultOffset))
    case (Some(limit), Some(offset)) => (limit, offset)
    case _ => (DefaultLimit, DefaultOffset)
  }

  /** `qs[start:stop]` for non-negative bounds, as a query set slices. */
  function Slice(rows: seq<CallView>, start: nat, stop: nat): (r: seq<CallView>)
    ensures |r| <= |rows|
    ensures forall x :: x in r ==> x in rows
    ensures start < stop && start < |rows| ==> r == rows[start..if stop < |rows| then stop else |rows|]
    ensures stop <= start || |rows| <= start ==> r == []
  {
    if stop <= start || |rows| <= start then []
    else rows[start..if stop < |rows| then stop else |rows|]
  }

  datatype AssignmentsReply =
    | Forbidden
    | NegativeIndexing                                   // the slice raises: a server error
    | Page(count: nat, nextOffset: Option<int>, results: seq<CallView>)

  /** The paramedic's calls, latest received first. */
  function AssignedTo(table: seq<CallView>, user: UserInfo): (r: seq<CallView>)
    ensures SortedByReceivedDesc(r)
    ensures forall c :: c in r <==> c in table && c.assignedParamedic == Some(user.id)
    ensures forall c :: multiset(r)[c] == if c.assignedParamedic == Some(user.id) then multiset(table)[c] else 0
  {
    OrderedQuery(table, (c: CallView) => c.assignedParamedic == Some(user.id))
  }

  /** The page for given limit and offset over the paramedic's calls. */
  function PageOf(calls: seq<CallView>, limit: int, offset: int): (r: AssignmentsReply)
    ensures r.Forbidden? == false
    ensures r.NegativeIndexing? <==> offset < 0 || offset + limit < 0
    ensures r.Page? ==> r.count == |calls|
    ensures r.Page? ==> (r.nextOffset.Some? <==> offset + limit < |calls|)
    ensures r.Page? && r.nextOffset.Some? ==> r.nextOffset.value == offset + limit
    ensures r.Page? ==> r.results == Slice(calls, offset, offset + limit)
  {
    if offset < 0 || offset + limit < 0 then NegativeIndexing
    else
      Page(|calls|,
           if offset + limit < |calls| then Some(offset + limit) else None,
           Slice(calls, offset, offset + limit))
  }

  /** `my_assignments`. */
  function MyAssignments(user: UserInfo, limitParam: Option<string>, offsetParam: Option<string>,
                         table: seq<CallView>): (r: AssignmentsReply)
    ensures !IsParamedic(user) <==> r.Forbidden?
    ensures IsParamedic(user) ==>
              r == PageOf(AssignedTo(table, user), PageParams(limitParam, offsetParam).0, PageParams(limitParam, offsetParam).1)
    ensures r.Page? ==> forall c :: c in r.results ==> c in table && c.assignedParamedic == Some(user.id)
  {
    if !IsParamedic(user) then Forbidden
    else
      var (limit, offset) := PageParams(limitParam, offsetParam);
      var calls := AssignedTo(table, user);
      var page := PageOf(calls, limit, offset);
      assert page.Page? ==> forall c :: c in page.results ==> c in calls;
      page
  }

  /** With no parameters the first ten calls are returned. */
  lemma DefaultPage(calls: seq<CallView>)
    ensures PageOf(calls, PageParams(None, None).0, PageParams(None, None).1)
            == Page(|calls|, if 10 < |calls| then Some(10) else None, Slice(calls, 0, 10))
  {
  }

  /** A limit of zero returns the offset itself as the next offset, so a
    * client following `next_offset` makes no progress. */
  lemma ZeroLimitDoesNotAdvance(calls: seq<CallView>, offset: nat)
    requires offset < |calls|
    ensures PageOf(calls, 0, offset) == Page(|calls|, Some(offset), [])
  {
  }

  /** The pages a client fetches by following `next_offset` from `offset`. */
  function Walk(calls: seq<CallView>, limit: nat, offset: nat): seq<seq<CallView>>
    requires limit > 0
    decreases |calls| - offset
  {
    var page := PageOf(calls, limit, offset);
    if page.Page? && page.nextOffset.Some? then [page.results] + Walk(calls, limit, offset + limit)
    else if page.Page? then [page.results]
    else []
  }

  function Flatten(pages: seq<seq<CallView>>): seq<CallView>
  {
    if pages == [] then [] else pages[0] + Flatten(pages[1..])
  }

  /** Following `next_offset` with a positive limit returns every call from
    * the starting offset on, each exactly once and in order. */
  lemma {:induction false} WalkCoversRest(calls: seq<CallView>, limit: nat, offset: nat)
    requires limit > 0 && offset <= |calls|
    ensures Flatten(Walk(calls, limit, offset)) == calls[offset..]
    decreases |calls| - offset
  {
    WalkStep(calls, limit, offset);
    if offset + limit < |calls| {
      var first, rest := calls[offset..offset + limit], Walk(calls, limit, offset + limit);
      WalkCoversRest(calls, limit, offset + limit);
      FlattenCons(first, rest);
      SuffixSplit(calls, offset, offset + limit);
    } else {
      FlattenCons(calls[offset..], []);
    }
  }

  /** One step of the walk: a full page and the walk from the next offset,
    * or the last page. */
  lemma WalkStep(calls: seq<CallView>, limit: nat, offset: nat)
    requires limit > 0 && offset <= |calls|
    ensures offset + limit < |calls| ==>
              Walk(calls, limit, offset) == [calls[offset..offset + limit]] + Walk(calls, limit, offset + limit)
    ensures |calls| <= offset + limit ==> Walk(calls, limit, offset) == [calls[offset..]]
  {
    var page := PageOf(calls, limit, offset);
    if offset + limit < |calls| {
      assert page.results == calls[offset..offset + limit];
    } else {
      assert page.results == calls[offset..];
    }
  }

  lemma SuffixSplit<T>(s: seq<T>, i: nat, j: nat)
    requires i <= j <= |s|
    ensures s[i..] == s[i..j] + s[j..]
  {
  }

  lemma FlattenCons(page: seq<CallView>, rest: seq<seq<CallView>>)
    ensures Flatten([page] + rest) == page + Flatten(rest)
  {
    assert ([page] + rest)[1..] == rest;
  }
}
