/** Identifiers printed by scripts/driver_route_assign.py and the LIKE pattern its purge uses. */
module AssignIds {
  import opened Outcomes
  import opened Numerals
  import opened Calendar

  datatype ScenarioKey = Pickup | Delivery | PickupReturn | DeliveryReturn {
    function Tag(): string {
      match this
      case Pickup => "ATP"
      case Delivery => "ATD"
      case PickupReturn => "ATPR"
      case DeliveryReturn => "ATDR"
    }

    predicate IncludeReturn() {
      PickupReturn? || DeliveryReturn?
    }
  }

  /** A scenario on a service day: what one seed writes and one purge removes. */
  datatype Slot = Slot(key: ScenarioKey, day: Date) {
    function Stem(): string {
      key.Tag() + "-" + Yymmdd(day)
    }

    function RouteCode(): string {
      "RT-" + Stem()
    }

    function OrderPrefix(): string {
      "ORD-" + Stem() + "-"
    }

    /** The LIKE pattern of the purge. */
    function OrderPattern(): string {
      OrderPrefix() + "%"
    }

    function OrderId(seqNo: nat, suffix: string): string {
      PrintedId("ORD-", this, seqNo, suffix)
    }

    function MasterLabel(seqNo: nat, suffix: string): string {
      PrintedId("ML-", this, seqNo, suffix)
    }

    function TrackingId(seqNo: nat, suffix: string): string {
      PrintedId("TRK-", this, seqNo, suffix)
    }
  }

  /** f"{head}{tag}-{yymmdd}-{seq:02d}{suffix}" */
  function PrintedId(head: string, slot: Slot, seqNo: nat, suffix: string): string {
    head + slot.Stem() + "-" + PadGrow(seqNo, 2) + suffix
  }

  const LEN_ORDER_ID := 32
  const LEN_MASTER_LABEL_ID := 40
  const LEN_TRACKING_ID := 40
  const RETURN_SUFFIX := "-RET"

  predicate IsSuffix(s: string) {
    s == "" || s == RETURN_SUFFIX
  }

  /** Same scenario, same printed day. */
  predicate SameSlot(a: Slot, b: Slot) {
    a.key == b.key && Yymmdd(a.day) == Yymmdd(b.day)
  }

  // ---- SQL LIKE ----

  /** PostgreSQL LIKE: '%' matches any run, '_' any one character, '\' quotes the next. */
  predicate Like(s: string, p: string)
    decreases |s| + |p|
  {
    if p == [] then s == []
    else if p[0] == '%' then Like(s, p[1..]) || (s != [] && Like(s[1..], p))
    else if p[0] == '_' then s != [] && Like(s[1..], p[1..])
    else if p[0] == '\\' && |p| > 1 then s != [] && s[0] == p[1] && Like(s[1..], p[2..])
    else s != [] && s[0] == p[0] && Like(s[1..], p[1..])
  }

  predicate Plain(p: string) {
    forall c :: c in p ==> c !in {'%', '_', '\\'}
  }

  lemma {:induction false} PercentMatchesAll(s: string)
    ensures Like(s, "%")
  {
    if s == [] {
      assert Like(s, "%"[1..]);
    } else {
      PercentMatchesAll(s[1..]);
    }
  }

  lemma {:induction false} LikeIsPrefix(s: string, pre: string)
    requires Plain(pre)
    ensures Like(s, pre + "%") <==> pre <= s
  {
    var p := pre + "%";
    if pre == [] {
      assert p == "%";
      PercentMatchesAll(s);
    } else {
      assert p[0] == pre[0] && pre[0] in pre;
      assert p[1..] == pre[1..] + "%";
      assert Plain(pre[1..]) by {
        assert forall c :: c in pre[1..] ==> c in pre;
      }
      if s != [] {
        LikeIsPrefix(s[1..], pre[1..]);
        if s[0] == pre[0] && pre[1..] <= s[1..] {
          assert pre == [pre[0]] + pre[1..] && s == [s[0]] + s[1..];
        }
      }
    }
  }

  lemma DigitsArePlain(s: string)
    requires AllDigits(s)
    ensures Plain(s)
  {
  }

  lemma TagIsPlain(key: ScenarioKey)
    ensures Plain(key.Tag())
  {
  }

  lemma PrefixIsPlain(slot: Slot)
    ensures Plain(slot.OrderPrefix())
  {
    hide Yymmdd, Like;
    var tag, day := slot.key.Tag(), Yymmdd(slot.day);
    TagIsPlain(slot.key);
    DigitsArePlain(day);
    FramedIsPlain("ORD-", tag, "-", day, "-");
  }

  lemma FramedIsPlain(a: string, b: string, c: string, d: string, e: string)
    requires Plain(a) && Plain(b) && Plain(c) && Plain(d) && Plain(e)
    ensures Plain(a + (b + c + d) + e)
  {
  }

  /** The purge pattern selects exactly the ids that start with the slot's prefix. */
  lemma PurgePatternIsPrefix(slot: Slot, id: string)
    ensures Like(id, slot.OrderPattern()) <==> slot.OrderPrefix() <= id
  {
    PrefixIsPlain(slot);
    LikeIsPrefix(id, slot.OrderPrefix());
  }

  // ---- Codec ----

  predicate NoDash(s: string) {
    forall i :: 0 <= i < |s| ==> s[i] != '-'
  }

  lemma SplitAtDash(a: string, b: string, s: string, t: string)
    requires NoDash(a) && NoDash(b)
    requires a + "-" + s == b + "-" + t
    ensures a == b && s == t
  {
    var u := a + "-" + s;
    assert |a| == |b| by {
      assert u[|a|] == '-' && u[|b|] == '-';
      assert forall i :: 0 <= i < |a| ==> u[i] == a[i];
      assert forall i :: 0 <= i < |b| ==> u[i] == b[i];
    }
    assert u[..|a|] == a && u[..|b|] == b;
    assert u[|a| + 1..] == s && u[|b| + 1..] == t;
  }

  lemma TagsDiffer(a: ScenarioKey, b: ScenarioKey)
    ensures NoDash(a.Tag())
    ensures a.Tag() == b.Tag() <==> a == b
  {
  }

  lemma CancelHead(head: string, s: string, t: string)
    requires head + s == head + t
    ensures s == t
  {
    assert (head + s)[|head|..] == s && (head + t)[|head|..] == t;
  }

  lemma CancelSix(y: string, z: string, s: string, t: string)
    requires |y| == |z| && y + s == z + t
    ensures y == z && s == t
  {
    assert (y + s)[..|y|] == y && (z + t)[..|z|] == z;
    assert (y + s)[|y|..] == s && (z + t)[|z|..] == t;
  }

  lemma Regroup(h: string, a: string, d: string, y: string, s: string)
    ensures h + (a + d + y) + s == h + (a + d + (y + s))
  {
  }

  lemma StemSplits(head: string, ta: string, tb: string, ya: string, yb: string, s: string, t: string)
    requires NoDash(ta) && NoDash(tb) && |ya| == |yb|
    requires head + (ta + "-" + ya) + s == head + (tb + "-" + yb) + t
    ensures ta == tb && ya == yb && s == t
  {
    Regroup(head, ta, "-", ya, s);
    Regroup(head, tb, "-", yb, t);
    CancelHead(head, ta + "-" + (ya + s), tb + "-" + (yb + t));
    SplitAtDash(ta, tb, ya + s, yb + t);
    CancelSix(ya, yb, s, t);
  }

  /** The scenario and the printed day can be read back from anything that starts with the stem. */
  lemma StemDecodes(a: Slot, b: Slot, head: string, s: string, t: string)
    requires head + a.Stem() + s == head + b.Stem() + t
    ensures SameSlot(a, b) && s == t
  {
    TagsDiffer(a.key, b.key);
    TagsDiffer(b.key, a.key);
    StemSplits(head, a.key.Tag(), b.key.Tag(), Yymmdd(a.day), Yymmdd(b.day), s, t);
  }

  lemma RouteCodeDecodes(a: Slot, b: Slot)
    ensures a.RouteCode() == b.RouteCode() <==> SameSlot(a, b)
  {
    if a.RouteCode() == b.RouteCode() {
      assert "RT-" + a.Stem() + "" == a.RouteCode() && "RT-" + b.Stem() + "" == b.RouteCode();
      StemDecodes(a, b, "RT-", "", "");
    }
  }

  lemma SameSlotSamePrefix(a: Slot, b: Slot)
    requires SameSlot(a, b)
    ensures a.Stem() == b.Stem() && a.OrderPrefix() == b.OrderPrefix() && a.RouteCode() == b.RouteCode()
  {
  }

  lemma RestOfPrefix(h: string, m: string, d: string, id: string) returns (rest: string)
    requires h + m + d <= id
    ensures id == h + m + (d + rest)
  {
    rest := id[|h + m + d|..];
  }

  /** Any id has at most one slot whose prefix it starts with. */
  lemma PrefixOwnerUnique(a: Slot, b: Slot, id: string)
    requires a.OrderPrefix() <= id && b.OrderPrefix() <= id
    ensures SameSlot(a, b)
  {
    hide Slot.Stem, Yymmdd;
    var s := RestOfPrefix("ORD-", a.Stem(), "-", id);
    var t := RestOfPrefix("ORD-", b.Stem(), "-", id);
    StemDecodes(a, b, "ORD-", "-" + s, "-" + t);
  }

  lemma PrintedIdStarts(head: string, slot: Slot, n: nat, s: string)
    ensures head + slot.Stem() + "-" <= PrintedId(head, slot, n, s)
  {
  }

  lemma GroupTail(h: string, d: string, n: string, s: string)
    ensures h + d + n + s == h + (d + (n + s))
  {
  }

  /** Order ids, labels and tracking ids are one-to-one in scenario, printed day, sequence number and suffix. */
  lemma PrintedIdInjective(head: string, a: Slot, b: Slot, m: nat, n: nat, s: string, t: string)
    requires IsSuffix(s) && IsSuffix(t)
    ensures PrintedId(head, a, m, s) == PrintedId(head, b, n, t) <==> SameSlot(a, b) && m == n && s == t
  {
    if PrintedId(head, a, m, s) == PrintedId(head, b, n, t) {
      var x, y := PadGrow(m, 2) + s, PadGrow(n, 2) + t;
      GroupTail(head + a.Stem(), "-", PadGrow(m, 2), s);
      GroupTail(head + b.Stem(), "-", PadGrow(n, 2), t);
      StemDecodes(a, b, head, "-" + x, "-" + y);
      CancelHead("-", x, y);
      SplitNumeral(PadGrow(m, 2), PadGrow(n, 2), s, t);
      PadGrowInjective(m, n, 2);
    }
  }

  /** A purge of one slot matches an id printed for another exactly when the slots print alike. */
  lemma PurgeMatchesOwnIdsOnly(a: Slot, b: Slot, n: nat, s: string)
    ensures Like(b.OrderId(n, s), a.OrderPattern()) <==> SameSlot(a, b)
  {
    var id := b.OrderId(n, s);
    PurgePatternIsPrefix(a, id);
    PrintedIdStarts("ORD-", b, n, s);
    if a.OrderPrefix() <= id {
      PrefixOwnerUnique(a, b, id);
    } else if SameSlot(a, b) {
      SameSlotSamePrefix(a, b);
    }
  }

  lemma SlotsMeetAcrossCenturies(a: Slot, b: Slot)
    ensures SameSlot(a, b) <==>
      a.key == b.key && a.day.month == b.day.month && a.day.day == b.day.day && a.day.year % 100 == b.day.year % 100
  {
    YymmddCollides(a.day, b.day);
  }

  // ---- Reading back ----

  function TagKey(tag: string): Option<ScenarioKey> {
    if tag == "ATP" then Some(Pickup)
    else if tag == "ATD" then Some(Delivery)
    else if tag == "ATPR" then Some(PickupReturn)
    else if tag == "ATDR" then Some(DeliveryReturn)
    else None
  }

  function DashAt(s: string): (k: nat)
    ensures k <= |s| && NoDash(s[..k]) && (k < |s| ==> s[k] == '-')
  {
    if s == [] || s[0] == '-' then 0
    else
      var k := DashAt(s[1..]);
      assert forall i :: 0 < i < 1 + k ==> s[i] == s[1..][..k][i - 1];
      1 + k
  }

  function DigitsAt(s: string): (k: nat)
    ensures k <= |s| && AllDigits(s[..k]) && (k < |s| ==> !IsDigit(s[k]))
  {
    if s == [] || !IsDigit(s[0]) then 0
    else
      var k := DigitsAt(s[1..]);
      assert forall i :: 0 < i < 1 + k ==> s[i] == s[1..][..k][i - 1];
      1 + k
  }

  /** What the stem says: the scenario and the day, its year without the century. */
  datatype StemReading = StemReading(key: ScenarioKey, year: nat, month: nat, day: nat, rest: string)

  /** Reads <head><tag>-<yy><mm><dd> and leaves the rest. */
  function ReadStem(head: string, s: string): Option<StemReading> {
    if !(head <= s) then None
    else
      var body := s[|head|..];
      var k := DashAt(body);
      if TagKey(body[..k]).None? || |body| < k + 7 || !AllDigits(body[k + 1..k + 7]) then None
      else
        var y := body[k + 1..k + 7];
        assert AllDigits(y[..2]) && AllDigits(y[2..4]) && AllDigits(y[4..]);
        Some(StemReading(TagKey(body[..k]).value, Value(y[..2]), Value(y[2..4]), Value(y[4..]), body[k + 7..]))
  }

  /** Reads -<number><suffix>. */
  function ReadNumber(s: string): Option<(nat, string)> {
    if s == [] || s[0] != '-' || DigitsAt(s[1..]) == 0 then None
    else
      var t := s[1..];
      Some((Value(t[..DigitsAt(t)]), t[DigitsAt(t)..]))
  }

  lemma {:induction false} DashEnds(a: string, s: string)
    requires NoDash(a)
    ensures DashAt(a + "-" + s) == |a|
  {
    var t := a + "-" + s;
    if a != [] {
      assert t[0] == a[0] && t[1..] == a[1..] + "-" + s;
      DashEnds(a[1..], s);
    }
  }

  lemma {:induction false} DigitsEnd(a: string, s: string)
    requires AllDigits(a) && (s == [] || !IsDigit(s[0]))
    ensures DigitsAt(a + s) == |a|
  {
    var t := a + s;
    if a == [] {
      assert t == s;
    } else {
      assert t[0] == a[0] && t[1..] == a[1..] + s;
      DigitsEnd(a[1..], s);
    }
  }

  lemma DayReads(d: Date)
    ensures var y := Yymmdd(d);
      && AllDigits(y[..2]) && AllDigits(y[2..4]) && AllDigits(y[4..])
      && Value(y[..2]) == d.year % 100 && Value(y[2..4]) == d.month && Value(y[4..]) == d.day
  {
    var y := Yymmdd(d);
    TwoDigits(d.year % 100);
    TwoDigits(d.month);
    TwoDigits(d.day);
    assert y[..2] == PadGrow(d.year % 100, 2) && y[2..4] == PadGrow(d.month, 2) && y[4..] == PadGrow(d.day, 2);
    ValueOfPadGrow(d.year % 100, 2);
    ValueOfPadGrow(d.month, 2);
    ValueOfPadGrow(d.day, 2);
  }

  /** The stem reads back as the scenario's tag and the day in year, month, day order. */
  lemma StemReads(slot: Slot, head: string, rest: string)
    ensures ReadStem(head, head + slot.Stem() + rest) ==
      Some(StemReading(slot.key, slot.day.year % 100, slot.day.month, slot.day.day, rest))
  {
    hide Yymmdd, Value;
    var tag, y := slot.key.Tag(), Yymmdd(slot.day);
    var s, body := head + slot.Stem() + rest, tag + "-" + (y + rest);
    assert s == head + body && s[|head|..] == body;
    TagsDiffer(slot.key, slot.key);
    DashEnds(tag, y + rest);
    assert body[..|tag|] == tag && body[|tag| + 1..|tag| + 7] == y && body[|tag| + 7..] == rest;
    DayReads(slot.day);
  }

  /** Every printed id reads back as the scenario, day, sequence number and suffix it was printed from. */
  lemma PrintedIdReads(head: string, slot: Slot, n: nat, suffix: string)
    requires IsSuffix(suffix)
    ensures var r := ReadStem(head, PrintedId(head, slot, n, suffix));
      && r.Some? && r.value == StemReading(slot.key, slot.day.year % 100, slot.day.month, slot.day.day, r.value.rest)
      && ReadNumber(r.value.rest) == Some((n, suffix))
  {
    hide ReadStem, Slot.Stem, Value;
    var digits := PadGrow(n, 2);
    var rest := "-" + (digits + suffix);
    assert PrintedId(head, slot, n, suffix) == head + slot.Stem() + rest;
    StemReads(slot, head, rest);
    assert rest[1..] == digits + suffix;
    DigitsEnd(digits, suffix);
    assert (digits + suffix)[..|digits|] == digits && (digits + suffix)[|digits|..] == suffix;
    ValueOfPadGrow(n, 2);
  }

  lemma RouteCodeReads(slot: Slot)
    ensures ReadStem("RT-", slot.RouteCode()) ==
      Some(StemReading(slot.key, slot.day.year % 100, slot.day.month, slot.day.day, ""))
  {
    hide ReadStem, Slot.Stem;
    assert slot.RouteCode() == "RT-" + slot.Stem() + "";
    StemReads(slot, "RT-", "");
  }
}
