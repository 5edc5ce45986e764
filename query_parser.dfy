/** parse_kintone_query: splits a kintone filter query into its base
    predicate, its "order by" clause, and the limit and offset it carries,
    merged with the caller's defaults. Keywords match without regard to ASCII
    case, and each clause must follow at least one whitespace character. */
module QueryParser {

  import opened Common
  import opened Strings
  import Client

  /** The result dictionary: base_query, order_by, limit and offset. */
  datatype ParseResult = ParseResult(
    baseQuery: string,
    orderBy: Option<string>,
    limit: Option<int>,
    offset: Option<int>)

  // ---------------------------------------------------------------------
  // Scanning

  /** ASCII lower case; every other character is left alone. */
  function Lower(c: char): (d: char)
    ensures 'a' <= d <= 'z' ==> ('a' <= c <= 'z' || 'A' <= c <= 'Z')
    ensures !('A' <= c <= 'Z') ==> d == c
  {
    if 'A' <= c <= 'Z' then (c as int + 32) as char else c
  }

  /** The ASCII lower case of every character of t. */
  function LowerAll(t: string): (r: string)
    ensures |r| == |t|
  {
    if t == [] then [] else [Lower(t[0])] + LowerAll(t[1..])
  }

  /** The lower-case keyword kw starts at index i of s, in any ASCII case. */
  predicate KeywordAt(s: string, i: nat, kw: string) {
    i + |kw| <= |s| && LowerAll(s[i..i + |kw|]) == kw
  }

  /** Index i of s is preceded by a whitespace character. */
  predicate SpaceBefore(s: string, i: nat) {
    0 < i <= |s| && IsSpace(s[i - 1])
  }

  /** The end of the run of whitespace that starts at i. */
  function SpaceRunEnd(s: string, i: nat): (r: nat)
    requires i <= |s|
    ensures i <= r <= |s| && (r == |s| || !IsSpace(s[r]))
    decreases |s| - i
  {
    if i < |s| && IsSpace(s[i]) then SpaceRunEnd(s, i + 1) else i
  }

  /** The start of the run of whitespace that ends just before p. */
  function SpaceRunStart(s: string, p: nat): (r: nat)
    requires p <= |s|
    ensures r <= p && (r == 0 || !IsSpace(s[r - 1]))
  {
    if p > 0 && IsSpace(s[p - 1]) then SpaceRunStart(s, p - 1) else p
  }

  /** The end of the run of digits that starts at i. */
  function DigitRunEnd(s: string, i: nat): (r: nat)
    requires i <= |s|
    ensures i <= r <= |s| && (r == |s| || !IsDigit(s[r]))
    ensures forall k :: i <= k < r ==> IsDigit(s[k])
    decreases |s| - i
  {
    if i < |s| && IsDigit(s[i]) then DigitRunEnd(s, i + 1) else i
  }

  /** The end of the field name that starts at i: it runs up to whitespace,
      a comma or the end. */
  function FieldEnd(s: string, i: nat): (r: nat)
    requires i <= |s|
    ensures i <= r <= |s| && (r == |s| || IsSpace(s[r]) || s[r] == ',')
    decreases |s| - i
  {
    if i < |s| && !IsSpace(s[i]) && s[i] != ',' then FieldEnd(s, i + 1) else i
  }

  /** A keyword ending at k is a whole token. */
  predicate TokenEnds(s: string, k: nat) {
    k == |s| || (k < |s| && (IsSpace(s[k]) || s[k] == ','))
  }

  /** The first position from `from` up to hi at which `at` finds
      something, with what it found there: the left-to-right scan of a
      regular-expression search. */
  function Search<T>(at: nat -> Option<T>, from: nat, hi: nat): (r: Option<(nat, T)>)
    requires from <= hi + 1
    ensures r.Some? ==> from <= r.value.0 <= hi && at(r.value.0) == Some(r.value.1)
    decreases hi + 1 - from, 1
  {
    if from > hi then None else SearchAt(at, from, hi)
  }

  /** One step of the scan: what `at` finds at from, or else the scan from
      the next position. */
  function SearchAt<T>(at: nat -> Option<T>, from: nat, hi: nat): (r: Option<(nat, T)>)
    requires from <= hi
    ensures r.Some? ==> from <= r.value.0 <= hi && at(r.value.0) == Some(r.value.1)
    decreases hi + 1 - from, 0
  {
    match at(from)
    case Some(x) => Some((from, x))
    case None => Search(at, from + 1, hi)
  }

  /** The scan stops at the first position where `at` finds something. */
  lemma {:induction false} SearchFindsFirst<T>(at: nat -> Option<T>, from: nat, hi: nat, p: nat)
    requires from <= p <= hi && at(p).Some?
    requires forall q :: from <= q < p ==> at(q).None?
    ensures Search(at, from, hi) == Some((p, at(p).value))
    decreases p - from
  {
    if from < p {
      SearchFindsFirst(at, from + 1, hi, p);
    }
  }

  /** The scan finds nothing only when `at` finds nothing anywhere in range. */
  lemma {:induction false} SearchFindsNothing<T>(at: nat -> Option<T>, from: nat, hi: nat, q: nat)
    requires from <= q <= hi && Search(at, from, hi).None?
    ensures at(q).None?
    decreases q - from
  {
    if from < q {
      SearchFindsNothing(at, from + 1, hi, q);
    }
  }

  // ---------------------------------------------------------------------
  // limit and offset

  /** A "limit N" or "offset N" clause whose keyword starts at p: whitespace
      before the keyword, whitespace after it, then digits. The result is the
      end of the digits and their value. */
  function NumberClauseAt(s: string, p: nat, kw: string): (r: Option<(nat, nat)>)
    requires p <= |s|
    ensures r.Some? ==> SpaceBefore(s, p) && KeywordAt(s, p, kw) && p + |kw| < r.value.0 <= |s|
  {
    if !(SpaceBefore(s, p) && KeywordAt(s, p, kw)) then None
    else
      var a := p + |kw|;
      if a >= |s| || !IsSpace(s[a]) then None
      else
        var d := SpaceRunEnd(s, a);
        if d >= |s| || !IsDigit(s[d]) then None
        else
          var e := DigitRunEnd(s, d);
          Some((e, DigitsValue(s[d..e])))
  }

  /** The clause for kw at each position. */
  function NumberClauseAtFn(s: string, kw: string): nat -> Option<(nat, nat)> {
    (q: nat) => if q <= |s| then NumberClauseAt(s, q, kw) else None
  }

  /** The first clause for kw, as re.search finds it: where its keyword
      starts, where its digits end, and their value (that it is the first is
      FindNumberClauseFirst). */
  function FindNumberClause(s: string, kw: string): (r: Option<(nat, (nat, nat))>)
    ensures r.Some? ==> r.value.0 < r.value.1.0 <= |s|
  {
    Search(NumberClauseAtFn(s, kw), 0, |s|)
  }

  /** What the search finds is a clause for kw. */
  lemma FindNumberClauseIsClause(s: string, kw: string)
    ensures var r := FindNumberClause(s, kw);
      r.Some? ==> r.value.0 <= |s| && NumberClauseAt(s, r.value.0, kw) == Some(r.value.1)
  {
  }

  /** Removes the first clause for kw, with the whitespace before it, and
      returns what is left and the clause's number. */
  function ExtractNumber(s: string, kw: string): (r: (string, Option<nat>))
    ensures r.1.None? ==> r.0 == s
    ensures |r.0| <= |s|
  {
    match FindNumberClause(s, kw)
    case None => (s, None)
    case Some((p, (e, v))) => (s[..SpaceRunStart(s, p)] + s[e..], Some(v))
  }

  // ---------------------------------------------------------------------
  // order by

  /** The end of one order-by item starting at d: a field name, optionally
      followed by whitespace and a whole-token "asc" or "desc". */
  function ItemEnd(s: string, d: nat): (r: nat)
    requires d <= |s|
    ensures FieldEnd(s, d) <= r <= |s|
  {
    var f := FieldEnd(s, d);
    if f < |s| && IsSpace(s[f]) then
      var g := SpaceRunEnd(s, f);
      if KeywordAt(s, g, "asc") && TokenEnds(s, g + 3) then g + 3
      else if KeywordAt(s, g, "desc") && TokenEnds(s, g + 4) then g + 4
      else f
    else f
  }

  /** The end of a comma-separated list of order-by items starting at d. */
  function ItemListEnd(s: string, d: nat): (r: nat)
    requires d <= |s| && d < FieldEnd(s, d)
    ensures d < r <= |s|
    decreases |s| - d, 1
  {
    ItemsAfter(s, ItemEnd(s, d))
  }

  /** The end of a list of items whose latest item ends at t: a comma and
      another item continue the list, and anything else ends it at t. */
  function ItemsAfter(s: string, t: nat): (r: nat)
    requires t <= |s|
    ensures t <= r <= |s|
    decreases |s| - t, 0
  {
    var u := SpaceRunEnd(s, t);
    if u < |s| && s[u] == ',' then
      var v := SpaceRunEnd(s, u + 1);
      if v < FieldEnd(s, v) then ItemListEnd(s, v) else t
    else t
  }


  /** An order-by clause whose keyword starts at p: whitespace before it,
      "order", whitespace, "by", whitespace, then a list of items. The result
      is the end of the list. */
  function OrderByAt(s: string, p: nat): (r: Option<nat>)
    requires p <= |s|
    ensures r.Some? ==> SpaceBefore(s, p) && KeywordAt(s, p, "order") && p + 5 < r.value <= |s|
  {
    if !(SpaceBefore(s, p) && KeywordAt(s, p, "order")) then None
    else
      var a := p + 5;
      if a >= |s| || !IsSpace(s[a]) then None
      else
        var b := SpaceRunEnd(s, a);
        if !KeywordAt(s, b, "by") || b + 2 >= |s| || !IsSpace(s[b + 2]) then None
        else
          var d := SpaceRunEnd(s, b + 2);
          if d < FieldEnd(s, d) then Some(ItemListEnd(s, d)) else None
  }

  /** The order-by clause at each position. */
  function OrderByAtFn(s: string): nat -> Option<nat> {
    (q: nat) => if q <= |s| then OrderByAt(s, q) else None
  }

  /** The first order-by clause, as re.search finds it: where its keyword
      starts and where it ends (that it is the first is FindOrderByFirst). */
  function FindOrderBy(s: string): (r: Option<(nat, nat)>)
    ensures r.Some? ==> r.value.0 < r.value.1 <= |s|
  {
    Search(OrderByAtFn(s), 0, |s|)
  }

  /** What the search finds is an order-by clause. */
  lemma FindOrderByIsClause(s: string)
    ensures var r := FindOrderBy(s);
      r.Some? ==> r.value.0 <= |s| && OrderByAt(s, r.value.0) == Some(r.value.1)
  {
  }

  /** Removes the first order-by clause, with the whitespace before it, and
      returns what is left and the clause's text as written. */
  function ExtractOrderBy(s: string): (r: (string, Option<string>))
    ensures r.1.None? ==> r.0 == s
    ensures |r.0| <= |s|
  {
    match FindOrderBy(s)
    case None => (s, None)
    case Some((p, e)) => (s[..SpaceRunStart(s, p)] + s[e..], Some(s[p..e]))
  }

  // ---------------------------------------------------------------------
  // The parser

  /** The limit in effect: the query's limit can only narrow the default. */
  function MergeLimit(queryLimit: Option<nat>, defaultLimit: Option<int>): (r: Option<int>)
    ensures queryLimit.Some? && defaultLimit.Some? ==>
              r.Some? && r.value <= queryLimit.value && r.value <= defaultLimit.value
              && (r.value == queryLimit.value || r.value == defaultLimit.value)
    ensures queryLimit.Some? && defaultLimit.None? ==> r == Some(queryLimit.value as int)
    ensures queryLimit.None? ==> r == defaultLimit
  {
    if queryLimit.Some? && defaultLimit.Some? then
      Some(if queryLimit.value <= defaultLimit.value then queryLimit.value else defaultLimit.value)
    else if queryLimit.Some? then Some(queryLimit.value)
    else defaultLimit
  }

  /** parse_kintone_query: an absent or empty query gives the defaults.
      Otherwise the first order-by clause is taken out, then the first limit
      clause of what is left, then the first offset clause of what is left
      after that, and the remainder, stripped, is the base query. */
  function ParseKintoneQuery(query: Option<string>, defaultLimit: Option<int>, defaultOffset: Option<int>)
    : (r: ParseResult)
    ensures !Truthy(query) ==> r == ParseResult("", None, defaultLimit, defaultOffset)
    ensures Truthy(query) ==> |r.baseQuery| <= |query.value|
    ensures r.baseQuery == [] || (!IsSpace(r.baseQuery[0]) && !IsSpace(r.baseQuery[|r.baseQuery| - 1]))
  {
    if !Truthy(query) then ParseResult("", None, defaultLimit, defaultOffset)
    else
      var s := query.value;
      var orderBy := ExtractOrderBy(s);
      var limit := ExtractNumber(orderBy.0, "limit");
      var offset := ExtractNumber(limit.0, "offset");
      ParseResult(Strip(offset.0), orderBy.1, MergeLimit(limit.1, defaultLimit),
                  if offset.1.Some? then Some(offset.1.value) else defaultOffset)
  }

  /** The order-by text the parser reports is a piece of the query that starts
      with the keyword "order"; a limit in the query can only narrow the
      caller's default limit, and without a default a limit or an offset is
      reported only when the query is non-empty. */
  lemma {:induction false} ParsedPieces(query: Option<string>, defaultLimit: Option<int>, defaultOffset: Option<int>)
    ensures var r := ParseKintoneQuery(query, defaultLimit, defaultOffset);
      && (r.orderBy.Some? ==> Truthy(query) && Contains(query.value, r.orderBy.value)
                              && KeywordAt(r.orderBy.value, 0, "order"))
      && (r.limit.Some? && defaultLimit.Some? ==> r.limit.value <= defaultLimit.value)
      && (r.limit.Some? && defaultLimit.None? ==> Truthy(query))
      && (r.offset.Some? && defaultOffset.None? ==> Truthy(query))
  {
    if Truthy(query) && ExtractOrderBy(query.value).1.Some? {
      OrderByOccurs(query.value);
      OrderByStartsWithKeyword(query.value);
    }
  }

  /** A keyword at p is a keyword at the start of any slice from p that holds it. */
  lemma KeywordAtSlice(s: string, p: nat, e: nat, kw: string)
    requires p + |kw| <= e <= |s| && KeywordAt(s, p, kw)
    ensures KeywordAt(s[p..e], 0, kw)
  {
    assert s[p..e][0..|kw|] == s[p..p + |kw|];
  }

  /** The extracted order-by text is a piece of the query. */
  lemma {:induction false} OrderByOccurs(s: string)
    requires ExtractOrderBy(s).1.Some?
    ensures Contains(s, ExtractOrderBy(s).1.value)
  {
    var p, e := FindOrderBy(s).value.0, FindOrderBy(s).value.1;
    var o := ExtractOrderBy(s).1.value;
    assert o == s[p..e];
    assert OccursAt(s, o, p);
  }

  /** The extracted order-by text starts with the keyword "order". */
  lemma {:induction false} OrderByStartsWithKeyword(s: string)
    requires ExtractOrderBy(s).1.Some?
    ensures KeywordAt(ExtractOrderBy(s).1.value, 0, "order")
  {
    FindOrderByIsClause(s);
    KeywordAtSlice(s, FindOrderBy(s).value.0, FindOrderBy(s).value.1, "order");
  }

  // ---------------------------------------------------------------------
  // Keyword-free text

  /** A keyword: lower-case ASCII letters only. */
  predicate IsKeyword(kw: string) {
    |kw| > 0 && forall k :: 0 <= k < |kw| ==> 'a' <= kw[k] <= 'z'
  }

  /** No keyword kw follows whitespace anywhere in s, so no clause for kw can
      start in s. */
  predicate NoKeyword(s: string, kw: string) {
    forall p | 0 < p <= |s| :: SpaceBefore(s, p) ==> !KeywordAt(s, p, kw)
  }

  /** s holds none of the three clause keywords after whitespace. */
  predicate ClauseFree(s: string) {
    NoKeyword(s, "order") && NoKeyword(s, "limit") && NoKeyword(s, "offset")
  }

  lemma {:induction false} LowerAllAt(t: string, k: nat)
    requires k < |t|
    ensures LowerAll(t)[k] == Lower(t[k])
  {
    if k > 0 {
      LowerAllAt(t[1..], k - 1);
    }
  }

  lemma KeywordCharAt(s: string, p: nat, kw: string, k: nat)
    requires KeywordAt(s, p, kw) && k < |kw|
    ensures Lower(s[p + k]) == kw[k]
  {
    LowerAllAt(s[p..p + |kw|], k);
  }

  /** A character whose lower case differs from the keyword's blocks it. */
  lemma CharBlocksKeyword(s: string, p: nat, kw: string, k: nat)
    requires k < |kw| && p + k < |s| && Lower(s[p + k]) != kw[k]
    ensures !KeywordAt(s, p, kw)
  {
    if KeywordAt(s, p, kw) {
      KeywordCharAt(s, p, kw, k);
    }
  }

  /** Whitespace inside the span of a keyword blocks it. */
  lemma SpaceBlocksKeyword(s: string, p: nat, kw: string, k: nat)
    requires IsKeyword(kw) && k < |kw| && p + k < |s| && IsSpace(s[p + k])
    ensures !KeywordAt(s, p, kw)
  {
    assert 'a' <= kw[k] <= 'z';
    CharBlocksKeyword(s, p, kw, k);
  }

  lemma KeywordShift(a: string, y: string, p: nat, kw: string)
    ensures KeywordAt(a + y, |a| + p, kw) == KeywordAt(y, p, kw)
  {
    if p + |kw| <= |y| {
      assert (a + y)[|a| + p..|a| + p + |kw|] == y[p..p + |kw|];
    }
  }

  lemma KeywordPrefix(x: string, y: string, p: nat, kw: string)
    requires p + |kw| <= |x|
    ensures KeywordAt(x + y, p, kw) == KeywordAt(x, p, kw)
  {
    assert (x + y)[p..p + |kw|] == x[p..p + |kw|];
  }

  /** Text followed by whitespace: no keyword absent from the text alone can
      start at or before its end. */
  lemma PrefixNoKeyword(s: string, x: string, kw: string, p: nat)
    requires IsKeyword(kw) && NoKeyword(x, kw) && |x| < |s| && s[..|x|] == x && IsSpace(s[|x|])
    requires p <= |x|
    ensures !(SpaceBefore(s, p) && KeywordAt(s, p, kw))
  {
    if p + |kw| <= |x| {
      forall k | p <= k < p + |kw| ensures s[k] == x[k] {
        assert s[k] == s[..|x|][k];
      }
      assert s[p..p + |kw|] == x[p..p + |kw|];
      assert KeywordAt(s, p, kw) == KeywordAt(x, p, kw);
      if SpaceBefore(s, p) {
        assert s[p - 1] == s[..|x|][p - 1] == x[p - 1];
        assert SpaceBefore(x, p);
      }
    } else {
      SpaceBlocksKeyword(s, p, kw, |x| - p);
    }
  }

  /** Keyword-free pieces joined at whitespace stay keyword-free. */
  lemma NoKeywordConcat(x: string, y: string, kw: string)
    requires IsKeyword(kw) && NoKeyword(x, kw) && NoKeyword(y, kw) && y != [] && IsSpace(y[0])
    ensures NoKeyword(x + y, kw)
  {
    forall p: nat | SpaceBefore(x + y, p) ensures !KeywordAt(x + y, p, kw) {
      if p <= |x| {
        assert (x + y)[..|x|] == x;
        PrefixNoKeyword(x + y, x, kw, p);
      } else {
        KeywordShift(x, y, p - |x|, kw);
        assert SpaceBefore(y, p - |x|);
      }
    }
  }

  /** A word after one space is keyword-free unless it starts with the keyword. */
  lemma SpacedWordNoKeyword(w: string, kw: string)
    requires forall k :: 0 <= k < |w| ==> !IsSpace(w[k])
    requires !KeywordAt(w, 0, kw)
    ensures NoKeyword(" " + w, kw)
  {
    forall p | SpaceBefore(" " + w, p) ensures !KeywordAt(" " + w, p, kw) {
      KeywordShift(" ", w, 0, kw);
    }
  }

  /** A word that spells another keyword does not start with kw when the two
      keywords differ at some index. */
  lemma WordIsOtherKeyword(w: string, other: string, kw: string, k: nat)
    requires LowerAll(w) == other && k < |other| && k < |kw| && other[k] != kw[k]
    ensures !KeywordAt(w, 0, kw)
  {
    LowerAllAt(w, k);
    CharBlocksKeyword(w, 0, kw, k);
  }

  /** The characters of a keyword-spelling word are letters, never whitespace. */
  lemma KeywordWordHasNoSpace(w: string, kw: string)
    requires IsKeyword(kw) && LowerAll(w) == kw
    ensures forall k :: 0 <= k < |w| ==> !IsSpace(w[k]) && w[k] != ','
  {
    forall k | 0 <= k < |w| ensures !IsSpace(w[k]) && w[k] != ',' {
      LowerAllAt(w, k);
      assert 'a' <= kw[k] <= 'z';
    }
  }

  // ---------------------------------------------------------------------
  // Clauses as written

  /** A limit or offset clause as written: the keyword in any case and its number. */
  datatype NumberClause = NumberClause(word: string, value: nat)

  /** The clause's text, with single spaces before the keyword and the number. */
  function NumberClauseText(c: NumberClause): string {
    " " + c.word + " " + NatToString(c.value)
  }

  /** One order-by item as written: a field name, then optionally a direction. */
  datatype OrderItem = OrderItem(field: string, direction: Option<string>)

  /** An order-by clause as written: "order" and "by" in any case, then the items. */
  datatype OrderBy = OrderBy(orderWord: string, byWord: string, items: seq<OrderItem>)

  function ItemText(it: OrderItem): string {
    it.field + (if it.direction.Some? then " " + it.direction.value else "")
  }

  /** The items joined by ", ". */
  function ItemsText(items: seq<OrderItem>): string
    requires |items| > 0
  {
    if |items| == 1 then ItemText(items[0]) else ItemText(items[0]) + ", " + ItemsText(items[1..])
  }

  function OrderByText(o: OrderBy): string
    requires |o.items| > 0
  {
    o.orderWord + " " + o.byWord + " " + ItemsText(o.items)
  }

  predicate IsField(f: string) {
    f != [] && forall k :: 0 <= k < |f| ==> !IsSpace(f[k]) && f[k] != ','
  }

  predicate ValidItem(it: OrderItem) {
    && IsField(it.field)
    && (it.direction.Some? ==> LowerAll(it.direction.value) == "asc" || LowerAll(it.direction.value) == "desc")
  }

  predicate ValidOrderBy(o: OrderBy) {
    && LowerAll(o.orderWord) == "order"
    && LowerAll(o.byWord) == "by"
    && |o.items| > 0
    && forall i :: 0 <= i < |o.items| ==> ValidItem(o.items[i])
  }

  /** t is written in s at index d. */
  predicate WrittenAt(s: string, d: nat, t: string) {
    d + |t| <= |s| && s[d..d + |t|] == t
  }

  lemma WrittenAtSplit(s: string, d: nat, a: string, b: string)
    requires WrittenAt(s, d, a + b)
    ensures WrittenAt(s, d, a) && WrittenAt(s, d + |a|, b)
  {
    assert s[d..d + |a|] == s[d..d + |a + b|][..|a|];
    assert s[d + |a|..d + |a| + |b|] == s[d..d + |a + b|][|a|..];
  }

  lemma WrittenAtChar(s: string, d: nat, t: string, k: nat)
    requires WrittenAt(s, d, t) && k < |t|
    ensures s[d + k] == t[k]
  {
    assert s[d + k] == s[d..d + |t|][k];
  }

  /** What may follow an order-by clause at e without being read as part of
      it: the end, or one whitespace character and a word that is not a
      comma and does not start like a direction. */
  predicate EndsOrderByAt(s: string, e: nat) {
    || e == |s|
    || (&& e + 1 < |s| && IsSpace(s[e]) && !IsSpace(s[e + 1]) && s[e + 1] != ','
        && Lower(s[e + 1]) != 'a' && Lower(s[e + 1]) != 'd')
  }

  // ---------------------------------------------------------------------
  // Finding clauses as written

  /** Absent order-by keywords leave the query as it is. */
  lemma NoOrderBy(s: string)
    requires NoKeyword(s, "order")
    ensures ExtractOrderBy(s) == (s, None)
  {
    FindOrderByIsClause(s);
  }

  /** Absent limit or offset keywords leave the query as it is. */
  lemma NoNumberClause(s: string, kw: string)
    requires NoKeyword(s, kw)
    ensures ExtractNumber(s, kw) == (s, None)
  {
    FindNumberClauseIsClause(s, kw);
  }

  /** A single whitespace character before a non-space one is a run of one. */
  lemma SpaceRunOfOne(s: string, i: nat)
    requires i + 1 < |s| && IsSpace(s[i]) && !IsSpace(s[i + 1])
    ensures SpaceRunEnd(s, i) == i + 1
  {
  }

  /** The whitespace run that ends before p starts at p - 1 when only one
      whitespace character precedes p. */
  lemma SpaceRunStartOfOne(s: string, p: nat)
    requires 2 <= p <= |s| && IsSpace(s[p - 1]) && !IsSpace(s[p - 2])
    ensures SpaceRunStart(s, p) == p - 1
  {
  }

  /** The digit run starting at d is exactly the digits placed there. */
  lemma {:induction false} DigitRunOf(s: string, d: nat, digits: string)
    requires d + |digits| <= |s| && s[d..d + |digits|] == digits && AllDigits(digits)
    requires d + |digits| == |s| || !IsDigit(s[d + |digits|])
    ensures DigitRunEnd(s, d) == d + |digits|
    decreases |digits|
  {
    if digits != [] {
      assert s[d] == digits[0];
      assert s[d + 1..d + |digits|] == digits[1..];
      DigitRunOf(s, d + 1, digits[1..]);
    }
  }

  /** A number clause written at p is recognised there, with its value. */
  lemma {:induction false} NumberClauseHere(s: string, p: nat, c: NumberClause, kw: string, e: nat)
    requires IsKeyword(kw) && LowerAll(c.word) == kw
    requires SpaceBefore(s, p) && p + |kw| + 1 <= e <= |s|
    requires s[p..p + |kw|] == c.word && s[p + |kw|] == ' '
    requires s[p + |kw| + 1..e] == NatToString(c.value)
    requires e == |s| || !IsDigit(s[e])
    ensures NumberClauseAt(s, p, kw) == Some((e, c.value))
  {
    var sd := NatToString(c.value);
    var d := p + |kw| + 1;
    assert s[d] == sd[0];
    SpaceRunOfOne(s, d - 1);
    DigitRunOf(s, d, sd);
    DigitsValueOfNatToString(c.value);
  }

  /** The search finds the clause at p when none starts before p. */
  lemma FindNumberClauseFirst(s: string, kw: string, p: nat)
    requires p <= |s| && NumberClauseAt(s, p, kw).Some?
    requires forall q :: 0 <= q < p ==> NumberClauseAt(s, q, kw).None?
    ensures FindNumberClause(s, kw) == Some((p, NumberClauseAt(s, p, kw).value))
  {
    SearchFindsFirst(NumberClauseAtFn(s, kw), 0, |s|, p);
  }


  /** No clause for kw starts within a keyword-free base followed by whitespace. */
  lemma NoNumberClauseInBase(s: string, b: string, kw: string)
    requires IsKeyword(kw) && NoKeyword(b, kw) && |b| < |s| && s[..|b|] == b && IsSpace(s[|b|])
    ensures forall q :: 0 <= q <= |b| ==> NumberClauseAt(s, q, kw).None?
  {
    forall q: nat | q <= |b| ensures NumberClauseAt(s, q, kw).None? {
      PrefixNoKeyword(s, b, kw, q);
    }
  }

  /** A number clause right after a keyword-free base is the first one, and
      extracting it leaves the base and what follows the number. */
  lemma {:induction false} NumberClauseFound(s: string, b: string, c: NumberClause, kw: string, rest: string)
    requires IsKeyword(kw) && LowerAll(c.word) == kw
    requires b != [] && !IsSpace(b[|b| - 1]) && NoKeyword(b, kw)
    requires rest == [] || !IsDigit(rest[0])
    requires s == b + NumberClauseText(c) + rest
    ensures ExtractNumber(s, kw) == (b + rest, Some(c.value))
  {
    var t := NumberClauseText(c) + rest;
    var p := |b| + 1;
    var e := p + |kw| + 1 + |NatToString(c.value)|;
    assert s == b + t;
    assert s == b + " " + c.word + " " + NatToString(c.value) + rest;
    assert s[p..p + |kw|] == c.word;
    assert s[p + |kw| + 1..e] == NatToString(c.value);
    NumberClauseHere(s, p, c, kw, e);
    assert s[..|b|] == b;
    NoNumberClauseInBase(s, b, kw);
    FindNumberClauseFirst(s, kw, p);
    SpaceRunStartOfOne(s, p);
    assert NumberClauseAt(s, p, kw).value == (e, c.value);
    assert ExtractNumber(s, kw) == (s[..|b|] + s[e..], Some(c.value));
    assert s[..|b|] == b && s[e..] == rest;
  }

  /** The field name written at d ends where the field does. */
  lemma FieldEndOf(s: string, d: nat, f: string)
    requires IsField(f) && d + |f| <= |s| && s[d..d + |f|] == f
    requires d + |f| == |s| || IsSpace(s[d + |f|]) || s[d + |f|] == ','
    ensures FieldEnd(s, d) == d + |f|
  {
    forall k | d <= k < d + |f| ensures !IsSpace(s[k]) && s[k] != ',' {
      assert s[k] == f[k - d];
    }
    FieldRunOf(s, d, d + |f|);
  }

  /** The field that starts at d runs to n when every character before n is
      part of it and n is where it must stop. */
  lemma {:induction false} FieldRunOf(s: string, d: nat, n: nat)
    requires d <= n <= |s| && forall k :: d <= k < n ==> !IsSpace(s[k]) && s[k] != ','
    requires n == |s| || IsSpace(s[n]) || s[n] == ','
    ensures FieldEnd(s, d) == n
    decreases n - d
  {
    if d < n {
      FieldRunOf(s, d + 1, n);
    }
  }

  /** The first letter of a word that spells a keyword is that keyword's
      first letter, in either case. */
  lemma {:induction false} KeywordWordStart(w: string, kw: string)
    requires IsKeyword(kw) && LowerAll(w) == kw
    ensures |w| > 0 && !IsSpace(w[0]) && Lower(w[0]) == kw[0]
  {
    LowerAllAt(w, 0);
    assert 'a' <= kw[0] <= 'z';
  }

  /** A field and a direction written at d end after the direction when a
      comma, whitespace or the end follows it. */
  lemma {:induction false} ItemEndWithDirection(s: string, d: nat, f: string, w: string)
    requires IsField(f) && (LowerAll(w) == "asc" || LowerAll(w) == "desc")
    requires d + |f| + 1 + |w| <= |s|
    requires s[d..d + |f|] == f && s[d + |f|] == ' ' && s[d + |f| + 1..d + |f| + 1 + |w|] == w
    requires TokenEnds(s, d + |f| + 1 + |w|)
    ensures ItemEnd(s, d) == d + |f| + 1 + |w|
  {
    var n := d + |f|;
    KeywordWordStart(w, LowerAll(w));
    assert s[n + 1] == w[0];
    FieldEndOf(s, d, f);
    SpaceRunOfOne(s, n);
    if LowerAll(w) == "asc" {
      assert KeywordAt(s, n + 1, "asc");
    } else {
      CharBlocksKeyword(s, n + 1, "asc", 0);
      assert KeywordAt(s, n + 1, "desc");
    }
  }

  /** A field without a direction written at d ends with the field when a
      comma, the end, or whitespace and a word not starting like a direction
      follows it. */
  lemma {:induction false} ItemEndBare(s: string, d: nat, f: string)
    requires IsField(f) && d + |f| <= |s| && s[d..d + |f|] == f
    requires || d + |f| == |s|
             || s[d + |f|] == ','
             || (d + |f| + 1 < |s| && IsSpace(s[d + |f|]) && !IsSpace(s[d + |f| + 1])
                 && Lower(s[d + |f| + 1]) != 'a' && Lower(s[d + |f| + 1]) != 'd')
    ensures ItemEnd(s, d) == d + |f|
  {
    var n := d + |f|;
    FieldEndOf(s, d, f);
    if n < |s| && IsSpace(s[n]) {
      SpaceRunOfOne(s, n);
      CharBlocksKeyword(s, n + 1, "asc", 0);
      CharBlocksKeyword(s, n + 1, "desc", 0);
    }
  }

  /** One item written at d, followed by a comma or by what may end the
      clause, ends where its text does. */
  lemma {:induction false} ItemEndOf(s: string, d: nat, it: OrderItem)
    requires ValidItem(it) && WrittenAt(s, d, ItemText(it))
    requires var e := d + |ItemText(it)|; (e < |s| && s[e] == ',') || EndsOrderByAt(s, e)
    ensures ItemEnd(s, d) == d + |ItemText(it)|
  {
    var f := it.field;
    if it.direction.Some? {
      var w := it.direction.value;
      WrittenAtSplit(s, d, f, " " + w);
      WrittenAtSplit(s, d + |f|, " ", w);
      WrittenAtChar(s, d + |f|, " ", 0);
      ItemEndWithDirection(s, d, f, w);
    } else {
      assert ItemText(it) == f;
      ItemEndBare(s, d, f);
    }
  }

  /** The first character of a list of items is its first field's. */
  lemma ItemsTextStart(items: seq<OrderItem>)
    requires |items| > 0 && ValidItem(items[0])
    ensures |ItemsText(items)| > 0 && ItemsText(items)[0] == items[0].field[0]
  {
  }

  /** A last item followed by what may end the clause ends the list. */
  lemma {:induction false} ItemListLast(s: string, d: nat, it: OrderItem)
    requires ValidItem(it) && WrittenAt(s, d, ItemText(it)) && EndsOrderByAt(s, d + |ItemText(it)|)
    ensures d < FieldEnd(s, d) && ItemListEnd(s, d) == d + |ItemText(it)|
  {
    WrittenAtChar(s, d, ItemText(it), 0);
    ItemEndOf(s, d, it);
    var t := d + |ItemText(it)|;
    if t < |s| {
      SpaceRunOfOne(s, t);
    }
  }

  /** For a list of two or more items: the rest of the list starts two
      characters after the first item, and the list ends where the rest of
      it does. */
  lemma {:induction false} ItemListRest(s: string, d: nat, items: seq<OrderItem>) returns (v: nat)
    requires |items| > 1 && ValidItem(items[0]) && ValidItem(items[1])
    requires WrittenAt(s, d, ItemsText(items))
    ensures WrittenAt(s, v, ItemsText(items[1..]))
    ensures d + |ItemsText(items)| == v + |ItemsText(items[1..])|
    ensures v < FieldEnd(s, v) && d < FieldEnd(s, d)
    ensures ItemListEnd(s, d) == ItemListEnd(s, v)
  {
    var it, tail := items[0], items[1..];
    var t := ItemsWrittenSplit(s, d, items);
    WrittenAtChar(s, d, ItemText(it), 0);
    ItemEndOf(s, d, it);
    ItemsTextStart(tail);
    WrittenAtChar(s, t + 2, ItemsText(tail), 0);
    v := t + 2;
    assert v < FieldEnd(s, v);
    ItemListStep(s, d, t);
  }

  /** A list of two or more items is written as its first item, a comma and
      a space, then the rest of the list. */
  lemma ItemsWrittenSplit(s: string, d: nat, items: seq<OrderItem>) returns (t: nat)
    requires |items| > 1 && WrittenAt(s, d, ItemsText(items))
    ensures t == d + |ItemText(items[0])| && WrittenAt(s, d, ItemText(items[0]))
    ensures t + 2 <= |s| && s[t] == ',' && s[t + 1] == ' '
    ensures WrittenAt(s, t + 2, ItemsText(items[1..]))
    ensures d + |ItemsText(items)| == t + 2 + |ItemsText(items[1..])|
  {
    var it, tail := items[0], items[1..];
    assert ItemsText(items) == ItemText(it) + ", " + ItemsText(tail);
    t := d + |ItemText(it)|;
    WrittenAtSplit(s, d, ItemText(it) + ", ", ItemsText(tail));
    WrittenAtSplit(s, d, ItemText(it), ", ");
    WrittenAtChar(s, t, ", ", 0);
    WrittenAtChar(s, t, ", ", 1);
  }

  /** After an item, a comma, one space and a field continue the list. */
  lemma ItemListStep(s: string, d: nat, t: nat)
    requires d <= |s| && d < FieldEnd(s, d) && ItemEnd(s, d) == t
    requires t + 2 < |s| && s[t] == ',' && s[t + 1] == ' ' && t + 2 < FieldEnd(s, t + 2)
    ensures ItemListEnd(s, d) == ItemListEnd(s, t + 2)
  {
    assert !IsSpace(s[t + 2]);
    SpaceRunOfOne(s, t + 1);
  }

  /** A list of items written at d, followed by what may end the clause,
      ends where its text does. */
  lemma {:induction false} ItemListEndOf(s: string, d: nat, items: seq<OrderItem>, e: nat)
    requires |items| > 0 && forall i :: 0 <= i < |items| ==> ValidItem(items[i])
    requires WrittenAt(s, d, ItemsText(items)) && e == d + |ItemsText(items)| && EndsOrderByAt(s, e)
    ensures d < FieldEnd(s, d) && ItemListEnd(s, d) == e
    decreases |items|
  {
    assert ValidItem(items[0]);
    if |items| == 1 {
      ItemListLast(s, d, items[0]);
    } else {
      assert ValidItem(items[1]);
      var v := ItemListRest(s, d, items);
      forall i | 0 <= i < |items[1..]| ensures ValidItem(items[1..][i]) {
        assert items[1..][i] == items[i + 1];
      }
      ItemListEndOf(s, v, items[1..], e);
    }
  }

  /** An order-by clause written at p, after whitespace and before what may
      end it, is recognised there and ends where its text does. */
  lemma {:induction false} OrderByHere(s: string, p: nat, o: OrderBy, e: nat)
    requires ValidOrderBy(o) && SpaceBefore(s, p)
    requires WrittenAt(s, p, OrderByText(o)) && e == p + |OrderByText(o)| && EndsOrderByAt(s, e)
    ensures OrderByAt(s, p) == Some(e)
  {
    var ow, bw := o.orderWord, o.byWord;
    WrittenAtSplit(s, p, ow + " " + bw + " ", ItemsText(o.items));
    WrittenAtSplit(s, p, ow + " " + bw, " ");
    WrittenAtSplit(s, p, ow + " ", bw);
    WrittenAtSplit(s, p, ow, " ");
    assert |ow| == 5 && |bw| == 2;
    assert KeywordAt(s, p, "order");
    WrittenAtChar(s, p + 5, " ", 0);
    KeywordWordStart(bw, "by");
    WrittenAtChar(s, p + 6, bw, 0);
    SpaceRunOfOne(s, p + 5);
    assert KeywordAt(s, p + 6, "by");
    WrittenAtChar(s, p + 8, " ", 0);
    assert ValidItem(o.items[0]);
    ItemsTextStart(o.items);
    WrittenAtChar(s, p + 9, ItemsText(o.items), 0);
    SpaceRunOfOne(s, p + 8);
    ItemListEndOf(s, p + 9, o.items, e);
  }

  /** The search finds the order-by clause at p when none starts before p. */
  lemma FindOrderByFirst(s: string, p: nat)
    requires p <= |s| && OrderByAt(s, p).Some?
    requires forall q :: 0 <= q < p ==> OrderByAt(s, q).None?
    ensures FindOrderBy(s) == Some((p, OrderByAt(s, p).value))
  {
    SearchFindsFirst(OrderByAtFn(s), 0, |s|, p);
  }


  /** No order-by clause starts within a keyword-free base followed by whitespace. */
  lemma NoOrderByInBase(s: string, b: string)
    requires NoKeyword(b, "order") && |b| < |s| && s[..|b|] == b && IsSpace(s[|b|])
    ensures forall q :: 0 <= q <= |b| ==> OrderByAt(s, q).None?
  {
    forall q: nat | q <= |b| ensures OrderByAt(s, q).None? {
      PrefixNoKeyword(s, b, "order", q);
    }
  }

  /** What may follow an order-by clause, as text of its own. */
  predicate EndsOrderBy(rest: string) {
    EndsOrderByAt(rest, 0)
  }

  lemma EndsOrderByShift(x: string, rest: string)
    requires EndsOrderBy(rest)
    ensures EndsOrderByAt(x + rest, |x|)
  {
    if rest != [] {
      assert (x + rest)[|x|] == rest[0] && (x + rest)[|x| + 1] == rest[1];
    }
  }

  /** An order-by clause right after a keyword-free base is the first one,
      and extracting it leaves the base and what follows the clause. */
  lemma {:induction false} OrderByFound(s: string, b: string, o: OrderBy, rest: string)
    requires ValidOrderBy(o) && EndsOrderBy(rest)
    requires b != [] && !IsSpace(b[|b| - 1]) && NoKeyword(b, "order")
    requires s == b + " " + OrderByText(o) + rest
    ensures ExtractOrderBy(s) == (b + rest, Some(OrderByText(o)))
  {
    var text := OrderByText(o);
    var p := |b| + 1;
    var e := p + |text|;
    assert s == (b + " " + text) + rest;
    EndsOrderByShift(b + " " + text, rest);
    assert s[p..e] == text;
    OrderByHere(s, p, o, e);
    assert s[..|b|] == b;
    NoOrderByInBase(s, b);
    FindOrderByFirst(s, p);
    SpaceRunStartOfOne(s, p);
    assert ExtractOrderBy(s) == (s[..|b|] + s[e..], Some(s[p..e]));
    assert s[..|b|] == b && s[e..] == rest;
  }

  // ---------------------------------------------------------------------
  // Queries made of a base and its clauses

  /** An optional limit or offset clause as text. */
  function ClauseText(c: Option<NumberClause>): string {
    if c.Some? then NumberClauseText(c.value) else ""
  }

  /** An optional order-by clause as text, after its whitespace. */
  function OrderByPart(o: Option<OrderBy>): string
    requires o.Some? ==> |o.value.items| > 0
  {
    if o.Some? then " " + OrderByText(o.value) else ""
  }

  /** A clause, when present, is spelled with the keyword kw in some case. */
  predicate SpelledAs(c: Option<NumberClause>, kw: string) {
    c.Some? ==> LowerAll(c.value.word) == kw
  }

  /** Keyword-free text stays keyword-free when text that is empty or starts
      with whitespace is appended. */
  lemma NoKeywordAppend(x: string, y: string, kw: string)
    requires IsKeyword(kw) && NoKeyword(x, kw) && NoKeyword(y, kw) && (y == [] || IsSpace(y[0]))
    ensures NoKeyword(x + y, kw)
  {
    if y == [] {
      assert x + y == x;
    } else {
      NoKeywordConcat(x, y, kw);
    }
  }

  /** Whitespace and then a word spelled as one keyword holds no other
      keyword that differs from it at index k. */
  lemma OtherKeywordWord(w: string, other: string, kw: string, k: nat)
    requires IsKeyword(other) && LowerAll(w) == other
    requires k < |other| && k < |kw| && other[k] != kw[k]
    ensures NoKeyword(" " + w, kw)
  {
    KeywordWordHasNoSpace(w, other);
    WordIsOtherKeyword(w, other, kw, k);
    SpacedWordNoKeyword(w, kw);
  }

  /** Whitespace and then decimal digits hold no keyword. */
  lemma DigitsWord(sd: string, kw: string)
    requires IsKeyword(kw) && sd != [] && AllDigits(sd)
    ensures NoKeyword(" " + sd, kw)
  {
    assert 'a' <= kw[0] <= 'z';
    CharBlocksKeyword(sd, 0, kw, 0);
    SpacedWordNoKeyword(sd, kw);
  }

  /** A clause spelled with one keyword holds no other keyword that differs
      from it at index k. */
  lemma {:induction false} ClauseNoKeyword(c: Option<NumberClause>, other: string, kw: string, k: nat)
    requires IsKeyword(other) && IsKeyword(kw) && SpelledAs(c, other)
    requires k < |other| && k < |kw| && other[k] != kw[k]
    ensures NoKeyword(ClauseText(c), kw)
  {
    if c.Some? {
      WordDigitsNoKeyword(c.value.word, c.value.value, other, kw, k);
    }
  }

  /** A keyword word followed by digits holds no other keyword that differs
      from it at index k. */
  lemma WordDigitsNoKeyword(w: string, n: nat, other: string, kw: string, k: nat)
    requires IsKeyword(other) && IsKeyword(kw) && LowerAll(w) == other
    requires k < |other| && k < |kw| && other[k] != kw[k]
    ensures NoKeyword(NumberClauseText(NumberClause(w, n)), kw)
  {
    var sd := NatToString(n);
    assert NumberClauseText(NumberClause(w, n)) == (" " + w) + (" " + sd);
    OtherKeywordWord(w, other, kw, k);
    DigitsWord(sd, kw);
    NoKeywordConcat(" " + w, " " + sd, kw);
  }

  /** A clause's text is empty or starts with whitespace and then the first
      letter of its keyword. */
  lemma ClauseStart(c: Option<NumberClause>, kw: string)
    requires IsKeyword(kw) && SpelledAs(c, kw)
    ensures var t := ClauseText(c);
      t == [] || (|t| >= 2 && t[0] == ' ' && !IsSpace(t[1]) && Lower(t[1]) == kw[0])
  {
    if c.Some? {
      KeywordWordStart(c.value.word, kw);
    }
  }

  /** The limit and offset clauses that follow an order-by clause end it. */
  lemma {:induction false} ClausesEndOrderBy(lim: Option<NumberClause>, off: Option<NumberClause>)
    requires SpelledAs(lim, "limit") && SpelledAs(off, "offset")
    ensures EndsOrderBy(ClauseText(lim) + ClauseText(off))
  {
    var l, f := ClauseText(lim), ClauseText(off);
    ClauseStart(lim, "limit");
    ClauseStart(off, "offset");
    var rest := l + f;
    if l != [] {
      assert rest[0] == l[0] && rest[1] == l[1];
    } else {
      assert rest == f;
    }
  }

  /** The first step of the parser on a base and its clauses: the order-by
      clause, when there is one, is taken out. */
  lemma {:induction false} ParseOrderByStep(s: string, b: string, o: OrderBy, lim: Option<NumberClause>,
                                            off: Option<NumberClause>)
    requires b != [] && !IsSpace(b[|b| - 1]) && NoKeyword(b, "order")
    requires ValidOrderBy(o) && SpelledAs(lim, "limit") && SpelledAs(off, "offset")
    requires s == b + " " + OrderByText(o) + (ClauseText(lim) + ClauseText(off))
    ensures ExtractOrderBy(s) == (b + (ClauseText(lim) + ClauseText(off)), Some(OrderByText(o)))
  {
    ClausesEndOrderBy(lim, off);
    OrderByFound(s, b, o, ClauseText(lim) + ClauseText(off));
  }

  /** Without an order-by clause the first step changes nothing. */
  lemma {:induction false} ParseNoOrderByStep(s: string, b: string, lim: Option<NumberClause>,
                                              off: Option<NumberClause>)
    requires NoKeyword(b, "order") && SpelledAs(lim, "limit") && SpelledAs(off, "offset")
    requires s == b + ClauseText(lim) + ClauseText(off)
    ensures ExtractOrderBy(s) == (s, None)
  {
    var l, f := ClauseText(lim), ClauseText(off);
    ClauseStart(lim, "limit");
    ClauseStart(off, "offset");
    ClauseNoKeyword(lim, "limit", "order", 0);
    ClauseNoKeyword(off, "offset", "order", 1);
    NoKeywordAppend(b, l, "order");
    NoKeywordAppend(b + l, f, "order");
    NoOrderBy(s);
  }

  /** The second step: the limit clause, if any, is taken out. */
  lemma {:induction false} ParseLimitStep(s: string, b: string, lim: Option<NumberClause>, off: Option<NumberClause>)
    requires b != [] && !IsSpace(b[|b| - 1]) && ClauseFree(b)
    requires SpelledAs(lim, "limit") && SpelledAs(off, "offset")
    requires s == b + ClauseText(lim) + ClauseText(off)
    ensures ExtractNumber(s, "limit") == (b + ClauseText(off), if lim.Some? then Some(lim.value.value) else None)
  {
    var f := ClauseText(off);
    ClauseStart(off, "offset");
    if lim.Some? {
      NumberClauseFound(s, b, lim.value, "limit", f);
    } else {
      ClauseNoKeyword(off, "offset", "limit", 0);
      NoKeywordAppend(b, f, "limit");
      assert s == b + f;
      NoNumberClause(s, "limit");
    }
  }

  /** The third step: the offset clause, if any, is taken out. */
  lemma {:induction false} ParseOffsetStep(s: string, b: string, off: Option<NumberClause>)
    requires b != [] && !IsSpace(b[|b| - 1]) && ClauseFree(b)
    requires SpelledAs(off, "offset")
    requires s == b + ClauseText(off)
    ensures ExtractNumber(s, "offset") == (b, if off.Some? then Some(off.value.value) else None)
  {
    if off.Some? {
      assert s == b + NumberClauseText(off.value) + [];
      NumberClauseFound(s, b, off.value, "offset", []);
      assert b + [] == b;
    } else {
      assert s == b;
      NoNumberClause(s, "offset");
    }
  }

  /** Regrouping the parts of a query. */
  lemma Regroup(b: string, sp: string, t: string, l: string, f: string)
    ensures b + (sp + t) + l + f == b + sp + t + (l + f)
    ensures b + (l + f) == b + l + f
  {
  }

  /** The parser's three extraction steps, given their outcomes. */
  lemma ParseSteps(s: string, s1: string, s2: string, s3: string, orderBy: Option<string>,
                   queryLimit: Option<nat>, queryOffset: Option<nat>,
                   defaultLimit: Option<int>, defaultOffset: Option<int>)
    requires s != []
    requires ExtractOrderBy(s) == (s1, orderBy)
    requires ExtractNumber(s1, "limit") == (s2, queryLimit)
    requires ExtractNumber(s2, "offset") == (s3, queryOffset)
    ensures ParseKintoneQuery(Some(s), defaultLimit, defaultOffset)
            == ParseResult(Strip(s3), orderBy, MergeLimit(queryLimit, defaultLimit),
                           if queryOffset.Some? then Some(queryOffset.value) else defaultOffset)
  {
  }

  /** The number a clause, when present, carries. */
  function ClauseValue(c: Option<NumberClause>): Option<nat> {
    if c.Some? then Some(c.value.value) else None
  }

  /** The limit and offset steps of the parser on a base and its clauses. */
  lemma {:induction false} ParseNumberSteps(s: string, s1: string, b: string, orderBy: Option<string>,
                                            lim: Option<NumberClause>, off: Option<NumberClause>,
                                            defaultLimit: Option<int>, defaultOffset: Option<int>)
    requires b != [] && !IsSpace(b[|b| - 1]) && ClauseFree(b)
    requires SpelledAs(lim, "limit") && SpelledAs(off, "offset")
    requires s != [] && ExtractOrderBy(s) == (s1, orderBy) && s1 == b + ClauseText(lim) + ClauseText(off)
    ensures ParseKintoneQuery(Some(s), defaultLimit, defaultOffset)
            == ParseResult(Strip(b), orderBy, MergeLimit(ClauseValue(lim), defaultLimit),
                           if off.Some? then Some(off.value.value) else defaultOffset)
  {
    var s2 := b + ClauseText(off);
    ParseLimitStep(s1, b, lim, off);
    ParseOffsetStep(s2, b, off);
    ParseSteps(s, s1, s2, b, orderBy, ClauseValue(lim), ClauseValue(off), defaultLimit, defaultOffset);
  }

  /** A query made of a base free of clause keywords, then an order-by
      clause, then an optional limit clause and an optional offset clause,
      parses into exactly those parts: the stripped base, the order-by text
      as written, the smaller of the two limits and the query's offset over
      the default. */
  lemma {:induction false} ParseWithOrderBy(s: string, b: string, o: OrderBy, lim: Option<NumberClause>,
                                            off: Option<NumberClause>, defaultLimit: Option<int>,
                                            defaultOffset: Option<int>)
    requires b != [] && !IsSpace(b[|b| - 1]) && ClauseFree(b)
    requires ValidOrderBy(o) && SpelledAs(lim, "limit") && SpelledAs(off, "offset")
    requires s == b + " " + OrderByText(o) + (ClauseText(lim) + ClauseText(off))
    ensures ParseKintoneQuery(Some(s), defaultLimit, defaultOffset)
            == ParseResult(Strip(b), Some(OrderByText(o)), MergeLimit(ClauseValue(lim), defaultLimit),
                           if off.Some? then Some(off.value.value) else defaultOffset)
  {
    var s1 := b + ClauseText(lim) + ClauseText(off);
    ParseOrderByStep(s, b, o, lim, off);
    Regroup(b, " ", OrderByText(o), ClauseText(lim), ClauseText(off));
    ParseNumberSteps(s, s1, b, Some(OrderByText(o)), lim, off, defaultLimit, defaultOffset);
  }

  /** The same without an order-by clause: a base free of clause keywords,
      then an optional limit clause and an optional offset clause. */
  lemma {:induction false} ParseWithoutOrderBy(s: string, b: string, lim: Option<NumberClause>,
                                               off: Option<NumberClause>, defaultLimit: Option<int>,
                                               defaultOffset: Option<int>)
    requires b != [] && !IsSpace(b[|b| - 1]) && ClauseFree(b)
    requires SpelledAs(lim, "limit") && SpelledAs(off, "offset")
    requires s == b + ClauseText(lim) + ClauseText(off)
    ensures ParseKintoneQuery(Some(s), defaultLimit, defaultOffset)
            == ParseResult(Strip(b), None, MergeLimit(ClauseValue(lim), defaultLimit),
                           if off.Some? then Some(off.value.value) else defaultOffset)
  {
    ParseNoOrderByStep(s, b, lim, off);
    ParseNumberSteps(s, s, b, None, lim, off, defaultLimit, defaultOffset);
  }

  /** A query in which no order-by, limit or offset clause starts anywhere
      passes through stripped, and the defaults stand. */
  lemma {:induction false} ParseNoClause(s: string, defaultLimit: Option<int>, defaultOffset: Option<int>)
    requires s != []
    requires forall p: nat :: p <= |s| ==>
               (OrderByAt(s, p).None? && NumberClauseAt(s, p, "limit").None? && NumberClauseAt(s, p, "offset").None?)
    ensures ParseKintoneQuery(Some(s), defaultLimit, defaultOffset)
            == ParseResult(Strip(s), None, defaultLimit, defaultOffset)
  {
    if FindOrderBy(s).Some? {
      FindOrderByIsClause(s);
    }
    if FindNumberClause(s, "limit").Some? {
      FindNumberClauseIsClause(s, "limit");
    }
    if FindNumberClause(s, "offset").Some? {
      FindNumberClauseIsClause(s, "offset");
    }
  }

  /** In particular, a query holding no clause keyword after whitespace
      passes through stripped, and the defaults stand. */
  lemma {:induction false} ParseClauseFree(s: string, defaultLimit: Option<int>, defaultOffset: Option<int>)
    requires s != [] && ClauseFree(s)
    ensures ParseKintoneQuery(Some(s), defaultLimit, defaultOffset)
            == ParseResult(Strip(s), None, defaultLimit, defaultOffset)
  {
    NoOrderBy(s);
    NoNumberClause(s, "limit");
    NoNumberClause(s, "offset");
    ParseSteps(s, s, s, s, None, None, None, defaultLimit, defaultOffset);
  }

  /** The query text of a page is the caller's query followed by a limit
      clause and an offset clause. */
  lemma RecordsQueryClauses(query: string, size: nat, offset: nat)
    requires query != []
    ensures Client.RecordsQuery(Some(query), size, offset)
            == query + ClauseText(Some(NumberClause("limit", size))) + ClauseText(Some(NumberClause("offset", offset)))
  {
    var sd, od := NatToString(size), NatToString(offset);
    assert Client.RecordsQuery(Some(query), size, offset) == query + " " + "limit " + sd + " offset " + od;
    assert ClauseText(Some(NumberClause("limit", size))) == " " + "limit" + " " + sd;
    assert ClauseText(Some(NumberClause("offset", offset))) == " " + "offset" + " " + od;
  }

  /** The query text get_all_records sends for a page, read back by the
      parser, gives the caller's query (stripped), the smaller of the page
      size and the default limit, and the page's offset, provided the
      caller's query ends in a non-space character and holds no clause of
      its own. */
  lemma {:induction false} ParseRecordsQuery(query: string, size: nat, offset: nat,
                                             defaultLimit: Option<int>, defaultOffset: Option<int>)
    requires query != [] && !IsSpace(query[|query| - 1]) && ClauseFree(query)
    ensures ParseKintoneQuery(Some(Client.RecordsQuery(Some(query), size, offset)), defaultLimit, defaultOffset)
            == ParseResult(Strip(query), None, MergeLimit(Some(size), defaultLimit), Some(offset))
  {
    var lim := Some(NumberClause("limit", size));
    var off := Some(NumberClause("offset", offset));
    var s := Client.RecordsQuery(Some(query), size, offset);
    RecordsQueryClauses(query, size, offset);
    ParseWithoutOrderBy(s, query, lim, off, defaultLimit, defaultOffset);
  }

  // ---------------------------------------------------------------------
  // Queries written as words

  /** A word that holds no whitespace and cannot start a clause keyword: it is
      shorter than every keyword or starts with neither 'o' nor 'l'. */
  predicate PlainWord(w: string) {
    && w != []
    && (forall k :: 0 <= k < |w| ==> !IsSpace(w[k]))
    && (|w| < 5 || (Lower(w[0]) != 'o' && Lower(w[0]) != 'l'))
  }

  /** Text that holds no clause keyword after whitespace and has no
      whitespace at either end. */
  predicate PlainText(t: string) {
    t != [] && ClauseFree(t) && !IsSpace(t[0]) && !IsSpace(t[|t| - 1])
  }

  /** Text without whitespace holds no keyword after whitespace. */
  lemma NoSpaceNoKeyword(w: string, kw: string)
    requires forall k :: 0 <= k < |w| ==> !IsSpace(w[k])
    ensures NoKeyword(w, kw)
  {
    forall p | 0 < p <= |w| ensures !SpaceBefore(w, p) {
      assert !IsSpace(w[p - 1]);
    }
  }

  /** A plain word is none of the clause keywords. */
  lemma PlainWordNoKeyword(w: string, kw: string)
    requires PlainWord(w) && (kw == "order" || kw == "limit" || kw == "offset")
    ensures NoKeyword(" " + w, kw)
  {
    if |w| >= 5 {
      CharBlocksKeyword(w, 0, kw, 0);
    }
    SpacedWordNoKeyword(w, kw);
  }

  /** A plain word is plain text. */
  lemma PlainWordText(w: string)
    requires PlainWord(w)
    ensures PlainText(w)
  {
    NoSpaceNoKeyword(w, "order");
    NoSpaceNoKeyword(w, "limit");
    NoSpaceNoKeyword(w, "offset");
  }

  /** Plain text, a space and a plain word make plain text. */
  lemma AppendPlainWord(t: string, w: string, u: string)
    requires PlainText(t) && PlainWord(w) && u == t + " " + w
    ensures PlainText(u)
  {
    PlainWordNoKeyword(w, "order");
    PlainWordNoKeyword(w, "limit");
    PlainWordNoKeyword(w, "offset");
    assert t + " " + w == t + (" " + w);
    NoKeywordConcat(t, " " + w, "order");
    NoKeywordConcat(t, " " + w, "limit");
    NoKeywordConcat(t, " " + w, "offset");
  }

  // ---------------------------------------------------------------------
  // The parser's documented cases

  /** Lower-casing character by character: the way to read a spelling of a
      keyword in any case. */
  lemma LowerAllByChars(t: string, u: string)
    requires |t| == |u| && forall k :: 0 <= k < |t| ==> Lower(t[k]) == u[k]
    ensures LowerAll(t) == u
  {
    forall k | 0 <= k < |t| ensures LowerAll(t)[k] == u[k] {
      LowerAllAt(t, k);
    }
  }

  /** A limit or offset clause spelled word, with the value whose decimal
      text is digits, as text. */
  lemma NumberPiece(word: string, kw: string, n: nat, digits: string)
    requires LowerAll(word) == kw && NatToString(n) == digits
    ensures SpelledAs(Some(NumberClause(word, n)), kw)
    ensures ClauseText(Some(NumberClause(word, n))) == " " + word + " " + digits
  {
  }

  /** A documented case with an order-by clause, as the parser's parts, each
      clause given with its text: a base without whitespace at its ends, the
      order-by clause, then the optional number clauses. */
  lemma {:induction false} ParseCaseWithOrderBy(q: string, b: string, o: OrderBy, lim: Option<NumberClause>,
                                                off: Option<NumberClause>, ot: string, lt: string, ft: string,
                                                defaultLimit: Option<int>, defaultOffset: Option<int>)
    requires PlainText(b)
    requires ValidOrderBy(o) && SpelledAs(lim, "limit") && SpelledAs(off, "offset")
    requires OrderByText(o) == ot && ClauseText(lim) == lt && ClauseText(off) == ft
    requires q == b + " " + ot + lt + ft
    ensures ParseKintoneQuery(Some(q), defaultLimit, defaultOffset)
            == ParseResult(b, Some(ot), MergeLimit(ClauseValue(lim), defaultLimit),
                           if off.Some? then Some(off.value.value) else defaultOffset)
  {
    assert q == b + " " + ot + (lt + ft);
    ParseWithOrderBy(q, b, o, lim, off, defaultLimit, defaultOffset);
    StripTrimmed(b);
  }

  /** A documented case without an order-by clause. */
  lemma {:induction false} ParseCaseWithoutOrderBy(q: string, b: string, lim: Option<NumberClause>,
                                                   off: Option<NumberClause>, lt: string, ft: string,
                                                   defaultLimit: Option<int>, defaultOffset: Option<int>)
    requires PlainText(b)
    requires SpelledAs(lim, "limit") && SpelledAs(off, "offset")
    requires ClauseText(lim) == lt && ClauseText(off) == ft
    requires q == b + lt + ft
    ensures ParseKintoneQuery(Some(q), defaultLimit, defaultOffset)
            == ParseResult(b, None, MergeLimit(ClauseValue(lim), defaultLimit),
                           if off.Some? then Some(off.value.value) else defaultOffset)
  {
    ParseWithoutOrderBy(q, b, lim, off, defaultLimit, defaultOffset);
    StripTrimmed(b);
  }


  /** The text of an order-by clause with one field and a direction. */
  lemma OneItemText(ow: string, bw: string, f: string, d: string)
    ensures OrderByText(OrderBy(ow, bw, [OrderItem(f, Some(d))])) == ow + " " + bw + " " + f + " " + d
  {
  }

  /** The text of an order-by clause with two fields, each with a direction. */
  lemma TwoItemsText(ow: string, bw: string, f1: string, d1: string, f2: string, d2: string)
    ensures OrderByText(OrderBy(ow, bw, [OrderItem(f1, Some(d1)), OrderItem(f2, Some(d2))]))
            == ow + " " + bw + " " + f1 + " " + d1 + ", " + f2 + " " + d2
  {
    var items := [OrderItem(f1, Some(d1)), OrderItem(f2, Some(d2))];
    assert items[1..] == [OrderItem(f2, Some(d2))];
    var t := (f1 + " " + d1) + ", " + (f2 + " " + d2);
    assert ItemsText(items) == t;
    assert ow + " " + bw + " " + t == ow + " " + bw + " " + f1 + " " + d1 + ", " + f2 + " " + d2;
  }

  /** The condition most of the documented cases start with. */
  const Condition: string := "field1 = \"value1\""

  lemma ConditionWords()
    ensures PlainText(Condition)
  {
    var t1 := "field1" + " " + "=";
    var t2 := t1 + " " + "\"value1\"";
    assert t2 == Condition;
    PlainWordText("field1");
    AppendPlainWord("field1", "=", t1);
    AppendPlainWord(t1, "\"value1\"", Condition);
  }

  /** "order by field2 desc". */
  const OrderByField2Desc: OrderBy := OrderBy("order", "by", [OrderItem("field2", Some("desc"))])

  lemma OrderByField2DescText()
    ensures OrderByText(OrderByField2Desc) == "order by field2 desc"
  {
    OneItemText("order", "by", "field2", "desc");
  }


  lemma OrderByField2DescValid()
    ensures ValidOrderBy(OrderByField2Desc)
  {
    LowerAllByChars("order", "order");
    LowerAllByChars("by", "by");
    LowerAllByChars("desc", "desc");
    assert ValidItem(OrderByField2Desc.items[0]);
  }

  /** A condition and no clause: the query passes through unchanged. */
  /** field1 = "value1" and field2 > 10 */
  const SimpleQuery: string := Condition + " and field2 > 10"

  lemma SimpleWords(t: string, u: string)
    requires PlainText(t) && u == t + " and field2 > 10"
    ensures PlainText(u)
  {
    var t1 := t + " " + "and";
    var t2 := t1 + " " + "field2";
    var t3 := t2 + " " + ">";
    assert u == t3 + " " + "10";
    AppendPlainWord(t, "and", t1);
    AppendPlainWord(t1, "field2", t2);
    AppendPlainWord(t2, ">", t3);
    AppendPlainWord(t3, "10", u);
  }

  lemma ParseSimpleCase()
    ensures ParseKintoneQuery(Some(SimpleQuery), Some(100), Some(0))
            == ParseResult(SimpleQuery, None, Some(100), Some(0))
  {
    ConditionWords();
    SimpleWords(Condition, SimpleQuery);
    ParseClauseFree(SimpleQuery, Some(100), Some(0));
    StripTrimmed(SimpleQuery);
  }

  /** A condition and an order-by clause with one descending field. */
  /** field1 = "value1" order by field2 desc */
  const OrderByQuery: string := Condition + " " + "order by field2 desc"

  lemma ParseOrderByCase()
    ensures ParseKintoneQuery(Some(OrderByQuery), Some(100), Some(0))
            == ParseResult(Condition, Some("order by field2 desc"), Some(100), Some(0))
  {
    OrderByField2DescText();
    OrderByField2DescValid();
    ConditionWords();
    ParseCaseWithOrderBy(OrderByQuery, Condition, OrderByField2Desc, None, None, "order by field2 desc", "", "",
              Some(100), Some(0));
  }

  /** An order-by clause with two fields, one descending and one ascending. */
  /** field1 = "value1" order by field2 desc, field3 asc */
  const TwoFieldOrderByQuery: string := Condition + " " + "order by field2 desc, field3 asc"

  const OrderByTwoFields: OrderBy :=
    OrderBy("order", "by", [OrderItem("field2", Some("desc")), OrderItem("field3", Some("asc"))])

  lemma OrderByTwoFieldsText()
    ensures OrderByText(OrderByTwoFields) == "order by field2 desc, field3 asc"
  {
    TwoItemsText("order", "by", "field2", "desc", "field3", "asc");
    var t := "order" + " " + "by" + " " + "field2" + " " + "desc" + ", " + "field3" + " " + "asc";
    assert t == "order by field2 desc, field3 asc";
  }


  lemma OrderByTwoFieldsValid()
    ensures ValidOrderBy(OrderByTwoFields)
  {
    LowerAllByChars("order", "order");
    LowerAllByChars("by", "by");
    LowerAllByChars("desc", "desc");
    LowerAllByChars("asc", "asc");
    assert ValidItem(OrderByTwoFields.items[0]) && ValidItem(OrderByTwoFields.items[1]);
  }

  lemma ParseTwoFieldOrderByCase()
    ensures ParseKintoneQuery(Some(TwoFieldOrderByQuery), Some(100), Some(0))
            == ParseResult(Condition, Some("order by field2 desc, field3 asc"), Some(100), Some(0))
  {
    OrderByTwoFieldsText();
    OrderByTwoFieldsValid();
    ConditionWords();
    ParseCaseWithOrderBy(TwoFieldOrderByQuery, Condition, OrderByTwoFields, None, None,
              "order by field2 desc, field3 asc", "", "", Some(100), Some(0));
  }

  /** A limit below the default wins. */
  /** field1 = "value1" limit 50 */
  const LimitQuery: string := Condition + " limit 50"

  lemma ParseLimitCase()
    ensures ParseKintoneQuery(Some(LimitQuery), Some(100), Some(0))
            == ParseResult(Condition, None, Some(50), Some(0))
  {
    LowerAllByChars("limit", "limit");
    NumberPiece("limit", "limit", 50, "50");
    ConditionWords();
    ParseCaseWithoutOrderBy(LimitQuery, Condition, Some(NumberClause("limit", 50)), None, " limit 50", "",
              Some(100), Some(0));
  }

  /** A limit above the default gives way to it. */
  /** field1 = "value1" limit 200 */
  const LargerLimitQuery: string := Condition + " limit 200"

  lemma ParseLargerLimitCase()
    ensures ParseKintoneQuery(Some(LargerLimitQuery), Some(100), Some(0))
            == ParseResult(Condition, None, Some(100), Some(0))
  {
    LowerAllByChars("limit", "limit");
    NumberPiece("limit", "limit", 200, "200");
    ConditionWords();
    ParseCaseWithoutOrderBy(LargerLimitQuery, Condition, Some(NumberClause("limit", 200)), None, " limit 200", "",
              Some(100), Some(0));
  }

  /** The query's offset replaces the default. */
  /** field1 = "value1" offset 50 */
  const OffsetQuery: string := Condition + " offset 50"

  lemma ParseOffsetCase()
    ensures ParseKintoneQuery(Some(OffsetQuery), Some(100), Some(0))
            == ParseResult(Condition, None, Some(100), Some(50))
  {
    LowerAllByChars("offset", "offset");
    NumberPiece("offset", "offset", 50, "50");
    ConditionWords();
    ParseCaseWithoutOrderBy(OffsetQuery, Condition, None, Some(NumberClause("offset", 50)), "", " offset 50",
              Some(100), Some(0));
  }

  /** All three clauses at once. */
  /** field1 = "value1" order by field2 desc limit 75 offset 25 */
  const AllClausesQuery: string := Condition + " " + "order by field2 desc" + " limit 75" + " offset 25"

  lemma Limit75Piece()
    ensures SpelledAs(Some(NumberClause("limit", 75)), "limit")
    ensures ClauseText(Some(NumberClause("limit", 75))) == " limit 75"
  {
    LowerAllByChars("limit", "limit");
    NumberPiece("limit", "limit", 75, "75");
  }

  lemma Offset25Piece()
    ensures SpelledAs(Some(NumberClause("offset", 25)), "offset")
    ensures ClauseText(Some(NumberClause("offset", 25))) == " offset 25"
  {
    LowerAllByChars("offset", "offset");
    NumberPiece("offset", "offset", 25, "25");
  }


  lemma ParseAllClausesCase()
    ensures ParseKintoneQuery(Some(AllClausesQuery), Some(100), Some(0))
            == ParseResult(Condition, Some("order by field2 desc"), Some(75), Some(25))
  {
    Limit75Piece();
    Offset25Piece();
    OrderByField2DescText();
    OrderByField2DescValid();
    ConditionWords();
    ParseCaseWithOrderBy(AllClausesQuery, Condition, OrderByField2Desc, Some(NumberClause("limit", 75)),
              Some(NumberClause("offset", 25)), "order by field2 desc", " limit 75", " offset 25",
              Some(100), Some(0));
  }


  /** Clause keywords are read in any case, and the order-by text keeps its
      case. */
  /** field1 = "value1" ORDER BY field2 DESC LIMIT 50 OFFSET 10 */
  const UpperCaseQuery: string := Condition + " " + "ORDER BY field2 DESC" + " LIMIT 50" + " OFFSET 10"

  const UpperOrderBy: OrderBy := OrderBy("ORDER", "BY", [OrderItem("field2", Some("DESC"))])

  lemma UpperOrderByText()
    ensures OrderByText(UpperOrderBy) == "ORDER BY field2 DESC"
  {
    OneItemText("ORDER", "BY", "field2", "DESC");
  }


  lemma UpperOrderByValid()
    ensures ValidOrderBy(UpperOrderBy)
  {
    LowerAllByChars("ORDER", "order");
    LowerAllByChars("BY", "by");
    LowerAllByChars("DESC", "desc");
    assert ValidItem(UpperOrderBy.items[0]);
  }

  lemma UpperLimit50Piece()
    ensures SpelledAs(Some(NumberClause("LIMIT", 50)), "limit")
    ensures ClauseText(Some(NumberClause("LIMIT", 50))) == " LIMIT 50"
  {
    LowerAllByChars("LIMIT", "limit");
    NumberPiece("LIMIT", "limit", 50, "50");
  }

  lemma UpperOffset10Piece()
    ensures SpelledAs(Some(NumberClause("OFFSET", 10)), "offset")
    ensures ClauseText(Some(NumberClause("OFFSET", 10))) == " OFFSET 10"
  {
    LowerAllByChars("OFFSET", "offset");
    NumberPiece("OFFSET", "offset", 10, "10");
  }


  lemma ParseUpperCaseCase()
    ensures ParseKintoneQuery(Some(UpperCaseQuery), Some(100), Some(0))
            == ParseResult(Condition, Some("ORDER BY field2 DESC"), Some(50), Some(10))
  {
    UpperLimit50Piece();
    UpperOffset10Piece();
    UpperOrderByText();
    UpperOrderByValid();
    ConditionWords();
    ParseCaseWithOrderBy(UpperCaseQuery, Condition, UpperOrderBy, Some(NumberClause("LIMIT", 50)),
              Some(NumberClause("OFFSET", 10)), "ORDER BY field2 DESC", " LIMIT 50", " OFFSET 10",
              Some(100), Some(0));
  }


  /** Without a default limit the query's limit stands. */
  lemma ParseNoDefaultLimitCase()
    ensures ParseKintoneQuery(Some(LimitQuery), None, Some(0))
            == ParseResult(Condition, None, Some(50), Some(0))
  {
    LowerAllByChars("limit", "limit");
    NumberPiece("limit", "limit", 50, "50");
    ConditionWords();
    ParseCaseWithoutOrderBy(LimitQuery, Condition, Some(NumberClause("limit", 50)), None, " limit 50", "",
              None, Some(0));
  }

  /** A condition with parentheses, a list and quoted values, kept as
      written before the order-by clause: field1 = "value1" and (field2 > 10 or field3 in ("a", "b")) order by field4 */
  const ComplexQuery: string := Complex + " " + "order by field4"

  /** field1 = "value1" and (field2 > 10 or field3 in ("a", "b")) */
  const Complex: string := Condition + " and (field2 > 10" + " or field3 in (\"a\", \"b\"))"

  lemma ComplexMiddle(t: string, u: string)
    requires PlainText(t) && u == t + " and (field2 > 10"
    ensures PlainText(u)
  {
    var t1 := t + " " + "and";
    var t2 := t1 + " " + "(field2";
    var t3 := t2 + " " + ">";
    assert u == t3 + " " + "10";
    AppendPlainWord(t, "and", t1);
    AppendPlainWord(t1, "(field2", t2);
    AppendPlainWord(t2, ">", t3);
    AppendPlainWord(t3, "10", u);
  }

  lemma ComplexTail(t: string, u: string)
    requires PlainText(t) && u == t + " or field3 in (\"a\", \"b\"))"
    ensures PlainText(u)
  {
    var t1 := t + " " + "or";
    var t2 := t1 + " " + "field3";
    var t3 := t2 + " " + "in";
    var t4 := t3 + " " + "(\"a\",";
    assert u == t4 + " " + "\"b\"))";
    AppendPlainWord(t, "or", t1);
    AppendPlainWord(t1, "field3", t2);
    AppendPlainWord(t2, "in", t3);
    AppendPlainWord(t3, "(\"a\",", t4);
    AppendPlainWord(t4, "\"b\"))", u);
  }

  lemma ComplexWords()
    ensures PlainText(Complex)
  {
    var t := Condition + " and (field2 > 10";
    ConditionWords();
    ComplexMiddle(Condition, t);
    ComplexTail(t, Complex);
  }

  /** "order by field4". */
  const OrderByField4: OrderBy := OrderBy("order", "by", [OrderItem("field4", None)])

  lemma OrderByField4Valid()
    ensures ValidOrderBy(OrderByField4)
  {
    LowerAllByChars("order", "order");
    LowerAllByChars("by", "by");
    assert ValidItem(OrderByField4.items[0]);
  }

  lemma ParseComplexCase()
    ensures ParseKintoneQuery(Some(ComplexQuery), Some(100), Some(0))
            == ParseResult(Complex, Some("order by field4"), Some(100), Some(0))
  {
    assert OrderByText(OrderByField4) == "order by field4";
    OrderByField4Valid();
    ComplexWords();
    ParseCaseWithOrderBy(ComplexQuery, Complex, OrderByField4, None, None, "order by field4", "", "",
              Some(100), Some(0));
  }
}
