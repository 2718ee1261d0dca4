/** The SET UP MENU command of the SIM toolkit (mbm/mbm-ril/u300-ril-stk.c:60-67, 237-305, 446-478): how the
    nested TLV is built in its allocated buffer, and that the parser of TLVs reads it back. */
module StkMenu {
  import opened Basics
  import opened Hex

  const ITEM_TAG_SIZE := 1
  const PROACT_TAG_SIZE := 1
  const LEN_SIZE := 1
  const INT_MAX := 0x7FFF_FFFF

  /** Command details and device identities. */
  const CMD_DTS_CMD_ID: string := "810301250082028182"

  /** An entry of the menu, in hexadecimal digits; the first is the title. */
  datatype Item = Item(tag: string, id: string, ct: string, data: string)
  {
    function Value(): string {
      id + ct + data
    }

    /** `len` */
    function Len(): nat {
      |data| + |ct| + |id|
    }

    /** Whole bytes. */
    predicate Ok() {
      |tag| == 2 && Len() % 2 == 0
    }

    /** The length has two digits, whatever it is. */
    function Written(): string {
      tag + AtLeastTwoDigits(Len() / 2)[..2] + Value()
    }
  }

  function LenTag(items: seq<Item>): nat {
    if items == [] then |CMD_DTS_CMD_ID| / 2
    else LenTag(items[..|items| - 1]) + ITEM_TAG_SIZE + LEN_SIZE + items[|items| - 1].Len() / 2
  }

  predicate AllOk(items: seq<Item>) {
    forall i | 0 <= i < |items| :: items[i].Ok()
  }

  /** Whole bytes, and no more of them than an int can count in digits. */
  predicate CanBuild(items: seq<Item>) {
    AllOk(items) && AllocatedFor(LenTag(items)) <= INT_MAX
  }

  /** `resplen` */
  function AllocatedFor(lentag: nat): nat {
    2 * (lentag + PROACT_TAG_SIZE + 2 * LEN_SIZE) + 1
  }

  function Body(items: seq<Item>): string {
    if items == [] then CMD_DTS_CMD_ID else Body(items[..|items| - 1]) + items[|items| - 1].Written()
  }

  /** Only two digits of the length are kept: what follows is written over the others. */
  function Header(lentag: nat): string {
    "D0" + ((if lentag > 0x7f then TwoDigits(0x81) else "") + AtLeastTwoDigits(lentag)[..2])
  }

  function Menu(items: seq<Item>): string {
    Header(LenTag(items)) + Body(items)
  }

  /** The length that the header gives is that of the body. */
  lemma {:induction false} BodyLength(items: seq<Item>)
    requires AllOk(items)
    ensures |Body(items)| == 2 * LenTag(items)
    decreases |items|
  {
    if items != [] {
      BodyLength(items[..|items| - 1]);
      assert items[|items| - 1].Ok();
    }
  }

  // ----- parsing

  /** A TLV with its tag, and where its value and what follows it begin. */
  datatype Tlv = Tlv(tag: Byte, start: nat, end: nat) | Underflow

  /** There are bytes for the tag and the length. */
  predicate CanParse(s: string) {
    |s| >= 4 && (ByteOf(s[2], s[3]) == 0x81 ==> |s| >= 6)
  }

  /** `mbm_parseTlv` on a text that is long enough to have a tag and a length. */
  function ParseTlv(s: string): (r: Tlv)
    requires CanParse(s)
    ensures r.Tlv? ==> 4 <= r.start <= r.end <= |s|
  {
    var tag := ByteOf(s[0], s[1]);
    var short := ByteOf(s[2], s[3]);
    var start := if short == 0x81 then 6 else 4;
    var len := if short == 0x81 then ByteOf(s[4], s[5]) else short;
    if start + 2 * len > |s| then Underflow else Tlv(tag, start, start + 2 * len)
  }

  datatype Object = Object(tag: Byte, value: string)

  /** TLV after TLV until the end; None if the text does not end with one. */
  function ParseAll(s: string): Option<seq<Object>>
    decreases |s|
  {
    if s == "" then Some([])
    else if !CanParse(s) then None
    else
      match ParseTlv(s)
      case Underflow => None
      case Tlv(tag, start, end) =>
        match ParseAll(s[end..])
        case None => None
        case Some(more) => Some([Object(tag, s[start..end])] + more)
  }

  function TagOf(i: Item): Byte
    requires i.Ok()
  {
    ByteOf(i.tag[0], i.tag[1])
  }

  function Objects(items: seq<Item>): (r: seq<Object>)
    requires AllOk(items)
    ensures |r| == |items|
  {
    if items == [] then []
    else [Object(TagOf(items[0]), items[0].id + items[0].ct + items[0].data)] + Objects(items[1..])
  }

  /** The items one after the other. */
  function Written(items: seq<Item>): string {
    if items == [] then "" else items[0].Written() + Written(items[1..])
  }

  lemma {:induction false} WrittenSnoc(items: seq<Item>)
    requires items != []
    ensures Written(items) == Written(items[..|items| - 1]) + items[|items| - 1].Written()
    decreases |items|
  {
    hide Item.Written;
    var last := |items| - 1;
    if last > 0 {
      WrittenSnoc(items[1..]);
      assert items[1..][..last - 1] == items[..last][1..];
      Associate(items[0].Written(), Written(items[..last][1..]), items[last].Written());
    } else {
      assert items[1..] == [] && items[..0] == [];
      assert items[0].Written() + "" == items[0].Written() == "" + items[0].Written();
    }
  }

  lemma {:induction false} BodyIsWritten(items: seq<Item>)
    ensures Body(items) == CMD_DTS_CMD_ID + Written(items)
    decreases |items|
  {
    hide Item.Written, CMD_DTS_CMD_ID;
    if items == [] {
      assert CMD_DTS_CMD_ID + "" == CMD_DTS_CMD_ID;
    } else {
      BodyIsWritten(items[..|items| - 1]);
      WrittenSnoc(items);
      Associate(CMD_DTS_CMD_ID, Written(items[..|items| - 1]), items[|items| - 1].Written());
    }
  }

  lemma ItemParts(i: Item, rest: string)
    requires i.Ok()
    ensures var s := i.Written() + rest;
            && |s| >= 4 && s[0] == i.tag[0] && s[1] == i.tag[1]
            && (i.Len() / 2 <= 255 ==> ByteOf(s[2], s[3]) == i.Len() / 2)
            && |s| == 4 + i.Len() + |rest| && s[4..4 + i.Len()] == i.Value() && s[4 + i.Len()..] == rest
  {
    hide AtLeastTwoDigits, ByteOf;
    var d := AtLeastTwoDigits(i.Len() / 2)[..2];
    var s := i.Written() + rest;
    assert |i.Value()| == i.Len();
    hide Item.Value, Item.Len;
    assert i.Written() == i.tag + d + i.Value();
    assert s[2] == d[0] && s[3] == d[1];
  }

  /** What one length byte can say, and not the mark of a two-byte length. */
  predicate ByteLong(i: Item) {
    i.Len() / 2 <= 255 && i.Len() / 2 != 0x81
  }

  /** An item is read back as it was written, whatever follows it, exactly if its length fits a byte and does
      not look like the mark of a two-byte length. */
  lemma ItemComesBack(i: Item, rest: string)
    requires i.Ok()
    ensures var s := i.Written() + rest;
            CanParse(s) && ParseTlv(s) == Tlv(TagOf(i), 4, 4 + i.Len()) <==> ByteLong(i)
  {
    ItemParts(i, rest);
    hide Item.Written, Item.Len, ByteOf;
  }

  /** The digits that objects take with one-byte lengths. */
  function Size(objects: seq<Object>): nat {
    if objects == [] then 0 else 4 + |objects[0].value| + Size(objects[1..])
  }

  lemma {:induction false} WrittenSize(items: seq<Item>)
    requires AllOk(items)
    ensures |Written(items)| == Size(Objects(items))
    decreases |items|
  {
    hide Item.Written, Item.Len, TagOf;
    if items != [] {
      WrittenSize(items[1..]);
      ValueIs(items[0]);
      ItemParts(items[0], "");
      assert items[0].Written() + "" == items[0].Written();
      assert |items[0].Value()| == items[0].Len();
    }
  }

  lemma ParseOne(s: string)
    requires CanParse(s) && ParseTlv(s).Tlv?
    ensures var t := ParseTlv(s);
            ParseAll(s) == match ParseAll(s[t.end..]) case None => None
                                                      case Some(more) => Some([Object(t.tag, s[t.start..t.end])] + more)
  {
    hide ParseTlv, CanParse;
  }

  /** What a text is read as takes up all of it, and a two-byte length takes two digits more. */
  lemma {:induction false} ReadSize(s: string)
    requires ParseAll(s).Some?
    ensures |s| >= Size(ParseAll(s).value)
    ensures |s| >= 4 && ByteOf(s[2], s[3]) == 0x81 ==> |s| >= Size(ParseAll(s).value) + 2
    decreases |s|
  {
    if s != "" {
      var t := ParseTlv(s);
      ReadSize(s[t.end..]);
      hide ByteOf;
      var more := ParseAll(s[t.end..]).value;
      assert ([Object(t.tag, s[t.start..t.end])] + more)[1..] == more;
    }
  }

  lemma ValueIs(i: Item)
    ensures i.Value() == i.id + i.ct + i.data && |i.Value()| == i.Len()
  {
  }

  /** Items of bytes come back exactly if none has 129: one that has takes two digits more to be read. */
  lemma {:induction false} ItemsComeBack(items: seq<Item>)
    requires AllOk(items) && forall i <- items :: i.Len() / 2 <= 255
    ensures ParseAll(Written(items)) == Some(Objects(items)) <==> forall i <- items :: ByteLong(i)
    decreases |items|
  {
    hide Item.Written, Item.Len, Item.Value, TagOf, ParseTlv, CanParse, ByteOf, ParseAll;
    if items == [] {
      NothingComesBack();
    } else {
      var first, rest := items[0], Written(items[1..]);
      assert first in items && items == [first] + items[1..];
      ItemsComeBack(items[1..]);
      ItemComesBack(first, rest);
      ItemParts(first, rest);
      ValueIs(first);
      if ByteLong(first) {
        ParseOne(first.Written() + rest);
        FrontIsSame(Object(TagOf(first), first.Value()), ParseAll(rest), Objects(items[1..]));
      } else if ParseAll(Written(items)) == Some(Objects(items)) {
        ReadSize(Written(items));
        WrittenSize(items);
      }
    }
  }

  lemma NothingComesBack()
    ensures ParseAll("") == Some([]) && Written([]) == ""
  {
  }

  lemma FrontIsSame(o: Object, more: Option<seq<Object>>, objects: seq<Object>)
    ensures (match more case None => None case Some(m) => Some([o] + m)) == Some([o] + objects)
        <==> more == Some(objects)
  {
    if more.Some? {
      assert ([o] + more.value)[1..] == more.value && ([o] + objects)[1..] == objects;
    }
  }

  lemma TwoHeaders(rest: string)
    ensures var s := CMD_DTS_CMD_ID + rest;
            && CanParse(s) && ParseTlv(s) == Tlv(0x81, 4, 10) && s[4..10] == "012500"
            && CanParse(s[10..]) && ParseTlv(s[10..]) == Tlv(0x82, 4, 8) && s[10..][4..8] == "8182"
            && s[10..][8..] == rest
  {
    var s := CMD_DTS_CMD_ID + rest;
    assert s[..18] == CMD_DTS_CMD_ID && s[18..] == rest;
    assert s[10..][8..] == s[18..];
  }

  /** What is in a menu. */
  function Content(items: seq<Item>): seq<Object>
    requires AllOk(items)
  {
    [Object(0x81, "012500")] + ([Object(0x82, "8182")] + Objects(items))
  }

  /** The objects in a menu: command details, device identities, and the items in order. */
  lemma BodyComesBack(items: seq<Item>)
    requires AllOk(items) && forall i <- items :: i.Len() / 2 <= 255
    ensures ParseAll(Body(items)) == Some(Content(items)) <==> forall i <- items :: ByteLong(i)
  {
    hide *;
    ContentIs(items);
    BodyIsWritten(items);
    ItemsComeBack(items);
    var rest := Written(items);
    var s := CMD_DTS_CMD_ID + rest;
    TwoHeaders(rest);
    ParseOne(s);
    ParseOne(s[10..]);
    FrontIsSame(Object(0x82, "8182"), ParseAll(rest), Objects(items));
    FrontIsSame(Object(0x81, "012500"), ParseAll(s[10..]), [Object(0x82, "8182")] + Objects(items));
  }

  lemma ContentIs(items: seq<Item>)
    requires AllOk(items)
    ensures Content(items) == [Object(0x81, "012500")] + ([Object(0x82, "8182")] + Objects(items))
  {
    hide Objects;
  }

  lemma OuterParts(items: seq<Item>)
    requires AllOk(items)
    ensures var s, lentag := Menu(items), LenTag(items);
            var start := if lentag > 0x7f then 6 else 4;
            && |s| == start + 2 * lentag && s[start..] == Body(items) && s[0] == 'D' && s[1] == '0'
            && (lentag > 0x7f ==> ByteOf(s[2], s[3]) == 0x81)
            && (lentag <= 255 ==> ByteOf(s[start - 2], s[start - 1]) == lentag)
  {
    hide AtLeastTwoDigits, ByteOf, LenTag, Body;
    BodyLength(items);
    var lentag := LenTag(items);
    var d := AtLeastTwoDigits(lentag)[..2];
    var s := Menu(items);
    if lentag > 0x7f {
      var m := TwoDigits(0x81);
      assert Header(lentag) == "D0" + (m + d);
      assert s[2] == m[0] && s[3] == m[1] && s[4] == d[0] && s[5] == d[1];
    } else {
      assert Header(lentag) == "D0" + ("" + d);
      assert s[2] == d[0] && s[3] == d[1];
    }
  }

  /** A menu is read as one object with tag D0 that spans it to its end, and in it are the two fixed objects
      and then each item. */
  predicate ComesBack(items: seq<Item>)
    requires AllOk(items)
  {
    var s := Menu(items);
    && CanParse(s) && ParseTlv(s).Tlv? && ParseTlv(s).tag == 0xD0 && ParseTlv(s).end == |s|
    && ParseAll(s[ParseTlv(s).start..]) == Some(Content(items))
  }

  /** A menu has at least the bytes of its items. */
  lemma {:induction false} ItemsCount(items: seq<Item>)
    ensures forall i <- items :: i.Len() / 2 <= LenTag(items)
    decreases |items|
  {
    if items != [] {
      var last := |items| - 1;
      assert items == items[..last] + [items[last]];
      ItemsCount(items[..last]);
    }
  }

  /** The outer object ends where the menu does exactly if there are at most 255 bytes in it. */
  lemma OuterComesBack(items: seq<Item>)
    requires AllOk(items)
    ensures var s := Menu(items);
            && CanParse(s)
            && (ParseTlv(s).Tlv? && ParseTlv(s).tag == 0xD0 && ParseTlv(s).end == |s| <==> LenTag(items) <= 255)
            && (LenTag(items) <= 255 ==> s[ParseTlv(s).start..] == Body(items))
  {
    OuterParts(items);
    assert ByteOf('D', '0') == 0xD0;
    hide Menu, Body, LenTag, ByteOf;
  }

  /** The round trip: a menu comes back exactly if it has at most 255 bytes and no item of 129. */
  lemma MenuComesBack(items: seq<Item>)
    requires AllOk(items)
    ensures ComesBack(items) <==> LenTag(items) <= 255 && forall i <- items :: i.Len() / 2 != 0x81
  {
    hide Menu, Body, LenTag, ParseTlv, CanParse, ParseAll, Content, Item.Len;
    OuterComesBack(items);
    if LenTag(items) <= 255 {
      ItemsCount(items);
      BodyComesBack(items);
    }
  }

  // ----- building

  /** Copies a string to p, with its terminator if it is `strcpy` or `sprintf` that does so; the rest of the
      buffer is still clear. */
  method Put(resp: array<char>, p: nat, s: string, terminated: bool) returns (q: nat)
    requires p + |s| < resp.Length && forall k | p + |s| <= k < resp.Length :: resp[k] == '\0'
    modifies resp
    ensures q == p + |s| && resp[..q] == old(resp[..p]) + s
    ensures forall k | q <= k < resp.Length :: resp[k] == '\0'
  {
    var i := 0;
    while i < |s|
      invariant i <= |s| && resp[..p + i] == old(resp[..p]) + s[..i]
      invariant forall k | p + |s| <= k < resp.Length :: resp[k] == '\0'
    {
      resp[p + i] := s[i];
      assert resp[..p + i + 1] == resp[..p + i] + [s[i]];
      assert s[..i + 1] == s[..i] + [s[i]];
      i := i + 1;
    }
    assert s[..|s|] == s;
    q := p + |s|;
    if terminated {
      resp[q] := '\0';
    }
  }

  /** The text built stays inside its allocation and is the menu. */
  method BuildStkMenu(cmenu: seq<Item>) returns (resp: array<char>)
    requires CanBuild(cmenu)
    ensures fresh(resp) && resp.Length == AllocatedFor(LenTag(cmenu)) == 2 * (LenTag(cmenu) + 3) + 1
    ensures var m := Menu(cmenu);
            |m| < resp.Length && resp[..|m|] == m && forall k | |m| <= k < resp.Length :: resp[k] == '\0'
  {
    hide LenTag, Body, Item.Written, Item.Value, Menu, Header;
    var firsttaglen := |CMD_DTS_CMD_ID|;
    var lentag := CountBytes(cmenu);
    resp := new char[2 * (lentag + PROACT_TAG_SIZE + 2 * LEN_SIZE) + 1](_ => '\0');
    BodyLength(cmenu);
    EmptyBody(cmenu);
    BodyGrows(cmenu, 0);
    HeaderLength(lentag);
    var p := PutHeader(resp, lentag);
    p := Put(resp, p, CMD_DTS_CMD_ID, false);
    ghost var head := Header(lentag);
    var i := 0;
    while i < |cmenu|
      invariant 0 <= i <= |cmenu| && p == |head| + |Body(cmenu[..i])| && p < resp.Length
      invariant resp[..p] == head + Body(cmenu[..i])
      invariant forall k | p <= k < resp.Length :: resp[k] == '\0'
    {
      BodySnoc(cmenu, i);
      BodyGrows(cmenu, i + 1);
      p := PutItem(resp, p, cmenu[i]);
      Associate(head, Body(cmenu[..i]), cmenu[i].Written());
      i := i + 1;
    }
    assert cmenu[..i] == cmenu;
    MenuIs(cmenu);
  }

  method CountBytes(cmenu: seq<Item>) returns (lentag: nat)
    ensures lentag == LenTag(cmenu)
  {
    lentag := |CMD_DTS_CMD_ID| / 2;
    for i := 0 to |cmenu|
      invariant lentag == LenTag(cmenu[..i])
    {
      assert cmenu[..i + 1][..i] == cmenu[..i];
      lentag := lentag + ITEM_TAG_SIZE + LEN_SIZE + cmenu[i].Len() / 2;
    }
    assert cmenu[..|cmenu|] == cmenu;
  }

  lemma HeaderLength(lentag: nat)
    ensures |Header(lentag)| == if lentag > 0x7f then 6 else 4
    ensures lentag <= INT_MAX ==> |AtLeastTwoDigits(lentag)| <= 8
  {
    assert Power16(8) == 0x1_0000_0000 by {
      assert Power16(4) == 0x1_0000;
    }
    if lentag <= INT_MAX {
      DigitsOfInt(lentag, 8);
    }
    hide Digits;
  }

  /** The tag and the length. If the length has more than two digits, the others are left behind p, where the
      fixed objects will be. */
  method PutHeader(resp: array<char>, lentag: nat) returns (p: nat)
    requires lentag <= INT_MAX && resp.Length > 6 + |CMD_DTS_CMD_ID|
    requires forall k | 0 <= k < resp.Length :: resp[k] == '\0'
    modifies resp
    ensures p == |Header(lentag)| && resp[..p] == Header(lentag)
    ensures forall k | p + |CMD_DTS_CMD_ID| <= k < resp.Length :: resp[k] == '\0'
  {
    HeaderLength(lentag);
    hide TwoDigits, AtLeastTwoDigits;
    p := Put(resp, 0, "D0", false);
    assert resp[..p] == "D0";
    if lentag > 0x7f {
      p := Put(resp, p, TwoDigits(0x81), true);
    }
    ghost var before := resp[..p];
    var digits := AtLeastTwoDigits(lentag);
    var q := Put(resp, p, digits, true);
    p := p + 2;
    assert resp[..p] == resp[..q][..p] == before + digits[..2];
  }

  method PutItem(resp: array<char>, p: nat, item: Item) returns (q: nat)
    requires item.Ok() && p + |item.Written()| < resp.Length && forall k | p <= k < resp.Length :: resp[k] == '\0'
    modifies resp
    ensures q == p + |item.Written()| && resp[..q] == old(resp[..p]) + item.Written()
    ensures forall k | q <= k < resp.Length :: resp[k] == '\0'
  {
    hide AtLeastTwoDigits, ByteOf;
    ghost var was := resp[..p];
    var d := AtLeastTwoDigits(item.Len() / 2)[..2];
    assert item.Written() == item.tag + d + (item.id + item.ct + item.data);
    q := Put(resp, p, item.tag, true);
    q := Put(resp, q, d, true);
    q := Put(resp, q, item.id, true);
    q := Put(resp, q, item.ct, true);
    q := Put(resp, q, item.data, false);
    assert resp[..q] == was + item.tag + d + item.id + item.ct + item.data;
    assert was + item.tag + d + item.id + item.ct + item.data == was + (item.tag + d + (item.id + item.ct + item.data));
  }

  lemma EmptyBody(items: seq<Item>)
    ensures items[..0] == [] && AllOk([]) && Body(items[..0]) == CMD_DTS_CMD_ID
  {
  }

  lemma BodySnoc(items: seq<Item>, i: nat)
    requires AllOk(items) && i < |items|
    ensures AllOk(items[..i + 1]) && Body(items[..i + 1]) == Body(items[..i]) + items[i].Written()
  {
    hide Item.Written;
    assert items[..i + 1][..i] == items[..i];
  }

  /** Part of the body is no longer than all of it. */
  lemma {:induction false} BodyGrows(items: seq<Item>, i: nat)
    requires AllOk(items) && i <= |items|
    ensures |Body(items[..i])| <= |Body(items)|
    decreases |items| - i
  {
    hide Body, Item.Written;
    if i < |items| {
      BodySnoc(items, i);
      BodyGrows(items, i + 1);
    } else {
      assert items[..i] == items;
    }
  }

  lemma MenuIs(items: seq<Item>)
    ensures Menu(items) == Header(LenTag(items)) + Body(items)
  {
    hide Header, Body, LenTag;
  }
}
