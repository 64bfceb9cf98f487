/**
 Request parsing: parseQuantityInput, parseSeatInput and sameUUIDSet. The UUID parser is a library call, hence
 a parameter.
 */
module Input {
  import opened Schema
  import opened Ordering
  import opened Uuid

  datatype QuantityInput = QuantityInput(eventId: string, ticketTypeId: string, quantity: int, key: string)

  datatype SeatInput = SeatInput(eventId: string, seatIds: seq<string>, key: string)

  type Parser = string -> Option<UUID>

  /** unicode.IsSpace */
  predicate IsSpace(c: char) {
    || '\t' <= c <= '\r' || c == ' ' || c == '\U{85}' || c == '\U{A0}' || c == '\U{1680}'
    || '\U{2000}' <= c <= '\U{200A}'
    || c == '\U{2028}' || c == '\U{2029}' || c == '\U{202F}' || c == '\U{205F}' || c == '\U{3000}'
  }

  /** strings.TrimSpace */
  function Trim(s: string): (r: string)
    ensures r == "" || (!IsSpace(r[0]) && !IsSpace(r[|r| - 1]))
  {
    if s == "" then s
    else if IsSpace(s[0]) then Trim(s[1..])
    else if IsSpace(s[|s| - 1]) then Trim(s[..|s| - 1])
    else s
  }

  /** The code points with the Unicode property White_Space. */
  const WHITE_SPACE: set<int> :=
    {0x9, 0xA, 0xB, 0xC, 0xD, 0x20, 0x85, 0xA0, 0x1680,
     0x2000, 0x2001, 0x2002, 0x2003, 0x2004, 0x2005, 0x2006, 0x2007, 0x2008, 0x2009, 0x200A,
     0x2028, 0x2029, 0x202F, 0x205F, 0x3000}

  predicate White(c: char) {
    c as int in WHITE_SPACE
  }

  predicate Blank(s: string) {
    forall k :: 0 <= k < |s| ==> White(s[k])
  }

  lemma SpaceIsWhite(c: char)
    ensures IsSpace(c) <==> White(c)
  {
  }

  /** r is s without its first i characters and those from j on: all of them white, and r not white at either end. */
  ghost predicate Cuts(s: string, i: nat, j: nat, r: string) {
    && i <= j <= |s| && r == s[i..j]
    && (forall k :: 0 <= k < i ==> White(s[k])) && (forall k :: j <= k < |s| ==> White(s[k]))
    && (i < j ==> !White(s[i]) && !White(s[j - 1]))
  }

  lemma CutFirst(s: string, i: nat, j: nat, r: string)
    requires s != "" && White(s[0]) && Cuts(s[1..], i, j, r)
    ensures Cuts(s, i + 1, j + 1, r)
  {
    hide White;
    assert forall k :: 0 < k < |s| ==> s[k] == s[1..][k - 1];
  }

  lemma CutLast(s: string, i: nat, j: nat, r: string)
    requires s != "" && White(s[|s| - 1]) && Cuts(s[..|s| - 1], i, j, r)
    ensures Cuts(s, i, j, r)
  {
    hide White;
    assert forall k :: 0 <= k < |s| - 1 ==> s[k] == s[..|s| - 1][k];
  }

  /** Trimming cuts white space from both ends, all of it, and keeps everything between. */
  lemma {:induction false} TrimCuts(s: string) returns (i: nat, j: nat)
    ensures Cuts(s, i, j, Trim(s))
  {
    hide IsSpace, White;
    i, j := 0, |s|;
    if s == "" {
    } else {
      SpaceIsWhite(s[0]);
      SpaceIsWhite(s[|s| - 1]);
      if IsSpace(s[0]) {
        i, j := TrimCuts(s[1..]);
        CutFirst(s, i, j, Trim(s));
        i, j := i + 1, j + 1;
      } else if IsSpace(s[|s| - 1]) {
        i, j := TrimCuts(s[..|s| - 1]);
        CutLast(s, i, j, Trim(s));
      }
    }
  }

  /** A key is rejected as empty exactly when it is blank. */
  lemma BlankTrims(s: string)
    ensures Trim(s) == "" <==> Blank(s)
  {
    hide Trim, White;
    var i, j := TrimCuts(s);
  }

  predicate QuantityAcceptable(parse: Parser, input: QuantityInput) {
    0 < input.quantity && !Blank(input.key) && parse(input.eventId).Some? && parse(input.ticketTypeId).Some?
  }

  method ParseQuantityInput(parse: Parser, input: QuantityInput) returns (r: Option<(UUID, UUID)>)
    ensures r == if QuantityAcceptable(parse, input)
                 then Some((parse(input.eventId).value, parse(input.ticketTypeId).value)) else None
  {
    hide Trim, Blank;
    BlankTrims(input.key);
    if input.quantity <= 0 || Trim(input.key) == "" { return None; }
    var eventId := parse(input.eventId);
    if eventId.None? { return None; }
    var ticketTypeId := parse(input.ticketTypeId);
    if ticketTypeId.None? { return None; }
    return Some((eventId.value, ticketTypeId.value));
  }

  function SeatAt(parse: Parser, input: SeatInput, j: nat): Option<UUID>
    requires j < |input.seatIds|
  {
    parse(Trim(input.seatIds[j]))
  }

  /** Each seat id is parsed without the white space around it. */
  lemma SeatIdTrimmed(parse: Parser, input: SeatInput, n: nat) returns (i: nat, j: nat)
    requires n < |input.seatIds|
    ensures i <= j <= |input.seatIds[n]| && Cuts(input.seatIds[n], i, j, input.seatIds[n][i..j])
    ensures SeatAt(parse, input, n) == parse(input.seatIds[n][i..j])
  {
    i, j := TrimCuts(input.seatIds[n]);
  }

  ghost predicate SeatsAcceptable(parse: Parser, input: SeatInput) {
    && !Blank(input.key) && input.seatIds != [] && parse(input.eventId).Some?
    && (forall j :: 0 <= j < |input.seatIds| ==> SeatAt(parse, input, j).Some?)
    && (forall j, k :: 0 <= j < k < |input.seatIds| ==> SeatAt(parse, input, j) != SeatAt(parse, input, k))
  }

  /** The parsed request: the event, and the requested seats in the order SQL gives them. */
  ghost predicate SeatsParsed(parse: Parser, input: SeatInput, eventId: Id, seatIds: seq<Id>) {
    && parse(input.eventId).Some? && parse(input.eventId).value == eventId
    && |seatIds| == |input.seatIds| && Ascending(seatIds)
    && (forall j :: 0 <= j < |input.seatIds| ==>
          SeatAt(parse, input, j).Some? && SeatAt(parse, input, j).value in seatIds)
    && (forall id :: id in seatIds ==>
          exists j :: 0 <= j < |input.seatIds| && SeatAt(parse, input, j).Some? && SeatAt(parse, input, j).value == id)
  }

  function InsertByText(id: UUID, sorted: seq<UUID>): seq<UUID> {
    if sorted == [] then [id]
    else if TextLess(Text(sorted[0]), Text(id)) then [sorted[0]] + InsertByText(id, sorted[1..])
    else [id] + sorted
  }

  /** sort.Slice by UUIDToString. */
  function SortByText(ids: seq<UUID>): seq<UUID> {
    if ids == [] then [] else InsertByText(ids[|ids| - 1], SortByText(ids[..|ids| - 1]))
  }

  lemma {:induction false} InsertByTextSorts(id: UUID, sorted: seq<UUID>)
    requires Ascending(sorted) && id !in sorted
    ensures var r := InsertByText(id, sorted);
            Ascending(r) && |r| == |sorted| + 1 && forall x :: x in r <==> x == id || x in sorted
  {
    hide Text, TextLess;
    if sorted != [] {
      TextOrder(sorted[0], id);
      assert sorted == [sorted[0]] + sorted[1..];
      if sorted[0] < id {
        InsertByTextSorts(id, sorted[1..]);
        var rest := InsertByText(id, sorted[1..]);
        forall k | 0 <= k < |rest| ensures sorted[0] < rest[k] { assert rest[k] in rest; }
      } else {
        assert sorted[0] in sorted;
      }
    }
  }

  lemma FrontAndLast(ids: seq<Id>)
    requires ids != [] && Distinct(ids)
    ensures ids[|ids| - 1] !in ids[..|ids| - 1]
    ensures forall x :: x in ids <==> x == ids[|ids| - 1] || x in ids[..|ids| - 1]
  {
    assert ids == ids[..|ids| - 1] + [ids[|ids| - 1]];
  }

  /** Sorting texts sorts the byte values SQL orders by, and loses nothing. */
  lemma {:induction false} SortByTextSorts(ids: seq<UUID>)
    requires Distinct(ids)
    ensures var r := SortByText(ids); Ascending(r) && |r| == |ids| && forall x :: x in r <==> x in ids
  {
    hide InsertByText;
    if ids != [] {
      var front, last := ids[..|ids| - 1], ids[|ids| - 1];
      SortByTextSorts(front);
      FrontAndLast(ids);
      InsertByTextSorts(last, SortByText(front));
    }
  }

  /** The string keys a loop has collected are the texts of exactly these ids. */
  ghost predicate KeysOf(keys: set<string>, ids: seq<UUID>) {
    forall id: UUID :: Text(id) in keys <==> id in ids
  }

  lemma KeysGrow(keys: set<string>, ids: seq<UUID>, id: UUID)
    requires KeysOf(keys, ids)
    ensures KeysOf(keys + {Text(id)}, ids + [id])
  {
    hide Text;
    forall x: UUID ensures Text(x) in keys + {Text(id)} <==> x in ids + [id] { TextOrder(x, id); }
  }

  method ParseSeatInput(parse: Parser, input: SeatInput) returns (r: Option<(UUID, seq<UUID>)>)
    ensures r.Some? <==> SeatsAcceptable(parse, input)
    ensures r.Some? ==> SeatsParsed(parse, input, r.value.0, r.value.1)
  {
    hide Text, Trim, IsSpace, Blank, SortByText;
    BlankTrims(input.key);
    if Trim(input.key) == "" || |input.seatIds| == 0 { return None; }
    var eventId := parse(input.eventId);
    if eventId.None? { return None; }
    var seen: set<string> := {};
    var seatIds: seq<UUID> := [];
    for n := 0 to |input.seatIds|
      invariant |seatIds| == n && Distinct(seatIds)
      invariant forall j :: 0 <= j < n ==> SeatAt(parse, input, j) == Some(seatIds[j])
      invariant KeysOf(seen, seatIds)
    {
      var seatId := SeatAt(parse, input, n);
      if seatId.None? { return None; }
      var key := Text(seatId.value);
      if key in seen {
        var j :| 0 <= j < n && seatIds[j] == seatId.value;
        assert SeatAt(parse, input, j) == SeatAt(parse, input, n);
        return None;
      }
      KeysGrow(seen, seatIds, seatId.value);
      assert forall j :: 0 <= j < n ==> seatIds[j] in seatIds;
      seen := seen + {key};
      seatIds := seatIds + [seatId.value];
    }
    ParsedAll(parse, input, seatIds);
    SortByTextSorts(seatIds);
    SortedParsed(parse, input, eventId.value, seatIds, SortByText(seatIds));
    return Some((eventId.value, SortByText(seatIds)));
  }

  lemma ParsedAll(parse: Parser, input: SeatInput, seatIds: seq<UUID>)
    requires |seatIds| == |input.seatIds| && Distinct(seatIds)
    requires forall j :: 0 <= j < |seatIds| ==> SeatAt(parse, input, j) == Some(seatIds[j])
    ensures forall j, k :: 0 <= j < k < |input.seatIds| ==> SeatAt(parse, input, j) != SeatAt(parse, input, k)
  {
  }

  lemma SortedParsed(parse: Parser, input: SeatInput, eventId: UUID, seatIds: seq<UUID>, sorted: seq<UUID>)
    requires parse(input.eventId) == Some(eventId) && |seatIds| == |input.seatIds|
    requires forall j :: 0 <= j < |seatIds| ==> SeatAt(parse, input, j) == Some(seatIds[j])
    requires Ascending(sorted) && |sorted| == |seatIds| && forall x :: x in sorted <==> x in seatIds
    ensures SeatsParsed(parse, input, eventId, sorted)
  {
    forall j | 0 <= j < |input.seatIds|
      ensures SeatAt(parse, input, j).value in sorted { assert seatIds[j] in seatIds; }
    forall id | id in sorted ensures exists j :: 0 <= j < |input.seatIds| && SeatAt(parse, input, j) == Some(id) {
      var j :| 0 <= j < |seatIds| && seatIds[j] == id;
      assert SeatAt(parse, input, j) == Some(id);
    }
  }

  method SameUUIDSet(left: seq<UUID>, right: seq<UUID>) returns (same: bool)
    ensures same <==> |left| == |right| && forall id :: id in right ==> id in left
  {
    hide Text;
    if |left| != |right| { return false; }
    var leftKeys: set<string> := {};
    for n := 0 to |left|
      invariant KeysOf(leftKeys, left[..n])
    {
      KeysGrow(leftKeys, left[..n], left[n]);
      assert left[..n + 1] == left[..n] + [left[n]];
      leftKeys := leftKeys + {Text(left[n])};
    }
    assert left[..|left|] == left;
    for n := 0 to |right|
      invariant forall j :: 0 <= j < n ==> right[j] in left
    {
      if Text(right[n]) !in leftKeys {
        assert right[n] in right;
        return false;
      }
    }
    return true;
  }

  lemma {:induction false} ToSetSize(ids: seq<Id>)
    ensures |ToSet(ids)| <= |ids|
    ensures Distinct(ids) ==> |ToSet(ids)| == |ids|
  {
    if ids != [] {
      var front, last := ids[..|ids| - 1], ids[|ids| - 1];
      ToSetSize(front);
      assert ids == front + [last];
      assert ToSet(ids) == ToSet(front) + {last};
      if Distinct(ids) { assert last !in ToSet(front); }
    }
  }

  /** On duplicate-free lists the test sameUUIDSet makes is equality of the two sets. */
  lemma SameUUIDSetMeaning(left: seq<Id>, right: seq<Id>)
    requires Distinct(left) && Distinct(right)
    ensures (|left| == |right| && forall id :: id in right ==> id in left) <==> ToSet(left) == ToSet(right)
  {
    ToSetSize(left);
    ToSetSize(right);
    if |left| == |right| && forall id :: id in right ==> id in left {
      assert ToSet(right) <= ToSet(left);
      if exists x :: x in left && x !in right {
        var x :| x in left && x !in right;
        assert ToSet(right) <= ToSet(left) - {x};
        SubsetSize(ToSet(right), ToSet(left) - {x});
        assert false;
      }
    }
    if ToSet(left) == ToSet(right) {
      forall id | id in right ensures id in left { assert id in ToSet(right); }
    }
  }

  lemma {:induction false} SubsetSize(a: set<Id>, b: set<Id>)
    requires a <= b
    ensures |a| <= |b|
  {
    if a != {} {
      var x :| x in a;
      SubsetSize(a - {x}, b - {x});
    }
  }
}
