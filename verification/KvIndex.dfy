/** The policy's index: an insertion-ordered dictionary key -> block, and the hex form of its keys. */
module KvIndex {
  import opened Common

  type Byte = x: int | 0 <= x < 256

  type Key = seq<Byte>

  /** One dictionary item. `ref` is the block's reference count: -1 while the store is in
      flight (not ready), 0 ready and evictable, positive while loads hold it. */
  datatype Entry = Entry(key: Key, slot: int, ref: int) {
    predicate Ready() { ref >= 0 }
  }

  predicate Has(b: seq<Entry>, k: Key) {
    exists i :: 0 <= i < |b| && b[i].key == k
  }

  ghost predicate DistinctKeys(b: seq<Entry>) {
    forall i, j :: 0 <= i < j < |b| ==> b[i].key != b[j].key
  }

  function Find(b: seq<Entry>, k: Key): (i: int)
    ensures -1 <= i < |b|
    ensures i >= 0 ==> b[i].key == k
    ensures i < 0 ==> !Has(b, k)
  {
    if b == [] then -1
    else if Last(b).key == k then |b| - 1
    else Find(Init(b), k)
  }

  /** `d[k] = v`: an existing key keeps its place in the order, a new one goes last. */
  function Put(b: seq<Entry>, e: Entry): (r: seq<Entry>)
    ensures !Has(b, e.key) ==> r == b + [e]
    ensures Has(r, e.key)
    ensures DistinctKeys(b) ==> DistinctKeys(r)
  {
    var i := Find(b, e.key);
    if i < 0 then
      var r := b + [e];
      assert r[|b|].key == e.key;
      r
    else
      var r := b[i := e];
      assert r[i].key == e.key;
      r
  }

  /** Assignment to an existing key changes that item alone and moves none; a new key goes last. */
  lemma {:induction false} PutKeepsPlaces(b: seq<Entry>, e: Entry)
    requires DistinctKeys(b)
    ensures DistinctKeys(Put(b, e)) && e in Put(b, e)
    ensures Has(b, e.key) ==>
              |Put(b, e)| == |b| && forall i :: 0 <= i < |b| ==>
                Put(b, e)[i] == if b[i].key == e.key then e else b[i]
    ensures !Has(b, e.key) ==> Put(b, e) == b + [e]
  {
    var r, i := Put(b, e), Find(b, e.key);
    assert r[if i < 0 then |b| else i] == e;
  }

  /** `del d[k]` for the item at position i. */
  function DropAt(b: seq<Entry>, i: nat): (r: seq<Entry>)
    requires i < |b|
    ensures |r| == |b| - 1
    ensures DistinctKeys(b) ==> DistinctKeys(r) && !Has(r, b[i].key)
    ensures forall e :: e in r ==> e in b
  {
    b[..i] + b[i + 1..]
  }

  /** Deleting one item leaves all others, in their order. */
  lemma {:induction false} DropKeepsOrder(b: seq<Entry>, i: nat)
    requires i < |b|
    ensures forall j :: 0 <= j < i ==> DropAt(b, i)[j] == b[j]
    ensures forall j :: i <= j < |b| - 1 ==> DropAt(b, i)[j] == b[j + 1]
  {
  }

  /** The items whose store completed, as (key, slot) pairs in dictionary order. */
  function ReadyPairs(b: seq<Entry>): (r: seq<(Key, int)>) {
    if b == [] then []
    else ReadyPairs(Init(b)) + (if Last(b).Ready() then [(Last(b).key, Last(b).slot)] else [])
  }

  lemma {:induction false} ReadyPairsMember(b: seq<Entry>, p: (Key, int))
    ensures p in ReadyPairs(b) <==> exists i :: 0 <= i < |b| && b[i].Ready() && p == (b[i].key, b[i].slot)
  {
    if b != [] {
      ReadyPairsMember(Init(b), p);
      assert forall i :: 0 <= i < |b| - 1 ==> Init(b)[i] == b[i];
    }
  }

  lemma {:induction false} ReadyPairsLast(b: seq<Entry>, e: Entry)
    ensures ReadyPairs(b + [e]) == ReadyPairs(b) + if e.ref >= 0 then [(e.key, e.slot)] else []
  {
    assert Init(b + [e]) == b;
  }

  /** The snapshot of two stretches of an index is that of the first followed by that of the second: it
      keeps the dictionary's order, and takes an item exactly when its reference count is not negative. */
  lemma {:induction false} ReadyPairsInOrder(a: seq<Entry>, b: seq<Entry>)
    ensures ReadyPairs(a + b) == ReadyPairs(a) + ReadyPairs(b)
    ensures |b| == 1 ==> ReadyPairs(b) == if b[0].ref >= 0 then [(b[0].key, b[0].slot)] else []
  {
    if b == [] {
      assert a + b == a;
    } else {
      ReadyPairsInOrder(a, Init(b));
      assert b == Init(b) + [Last(b)] && a + b == a + Init(b) + [Last(b)];
      ReadyPairsLast(a + Init(b), Last(b));
      ReadyPairsLast(Init(b), Last(b));
    }
  }

  // ---------------------------------------------------------------- slots and counts

  /** The slots an index occupies, with multiplicity. */
  function SlotBag(b: seq<Entry>): multiset<int> {
    if b == [] then multiset{} else SlotBag(Init(b)) + multiset{Last(b).slot}
  }

  /** How many items have reference count `ref`. */
  function CountRef(b: seq<Entry>, ref: int): (n: nat)
    ensures n <= |b|
  {
    if b == [] then 0 else CountRef(Init(b), ref) + if Last(b).ref == ref then 1 else 0
  }

  lemma {:induction false} AppendBag(b: seq<Entry>, e: Entry)
    ensures SlotBag(b + [e]) == SlotBag(b) + multiset{e.slot}
    ensures forall ref :: CountRef(b + [e], ref) == CountRef(b, ref) + if e.ref == ref then 1 else 0
  {
    assert Init(b + [e]) == b;
  }

  lemma {:induction false} DropBeforeLast(b: seq<Entry>, i: nat)
    requires i < |b| - 1
    ensures DropAt(b, i) == DropAt(Init(b), i) + [Last(b)]
    ensures Init(b)[i] == b[i]
  {
    assert b[i + 1..] == Init(b)[i + 1..] + [Last(b)];
    assert b[..i] == Init(b)[..i];
  }

  /** CountRef counts positions. */
  lemma {:induction false} CountRefIs(b: seq<Entry>, ref: int)
    ensures CountRef(b, ref) == |set i | 0 <= i < |b| && b[i].ref == ref|
  {
    var all := set i | 0 <= i < |b| && b[i].ref == ref;
    if b == [] {
      assert all == {};
    } else {
      CountRefIs(Init(b), ref);
      var before := set i | 0 <= i < |Init(b)| && Init(b)[i].ref == ref;
      assert all == before + if Last(b).ref == ref then {|b| - 1} else {};
    }
  }

  /** Taking one item out changes the bag and the counts by exactly that item. */
  lemma {:induction false} BagSplit(b: seq<Entry>, i: nat)
    requires i < |b|
    ensures SlotBag(b) == SlotBag(DropAt(b, i)) + multiset{b[i].slot}
  {
    if i == |b| - 1 {
      assert DropAt(b, i) == Init(b);
    } else {
      BagSplit(Init(b), i);
      AppendBag(DropAt(Init(b), i), Last(b));
      DropBeforeLast(b, i);
    }
  }

  lemma {:induction false} CountSplit(b: seq<Entry>, i: nat, ref: int)
    requires i < |b|
    ensures CountRef(b, ref) == CountRef(DropAt(b, i), ref) + if b[i].ref == ref then 1 else 0
  {
    if i == |b| - 1 {
      assert DropAt(b, i) == Init(b);
    } else {
      CountSplit(Init(b), i, ref);
      AppendBag(DropAt(Init(b), i), Last(b));
      DropBeforeLast(b, i);
    }
  }

  lemma {:induction false} BagSet(b: seq<Entry>, i: nat, e: Entry)
    requires i < |b|
    ensures SlotBag(b[i := e]) == SlotBag(DropAt(b, i)) + multiset{e.slot}
  {
    BagSplit(b[i := e], i);
    assert DropAt(b[i := e], i) == DropAt(b, i);
  }

  lemma {:induction false} CountSet(b: seq<Entry>, i: nat, e: Entry, ref: int)
    requires i < |b|
    ensures CountRef(b[i := e], ref) == CountRef(DropAt(b, i), ref) + if e.ref == ref then 1 else 0
  {
    CountSplit(b[i := e], i, ref);
    assert DropAt(b[i := e], i) == DropAt(b, i);
  }

  lemma {:induction false} BagSize(b: seq<Entry>)
    ensures |SlotBag(b)| == |b|
  {
    if b != [] { BagSize(Init(b)); }
  }

  lemma {:induction false} BagMember(b: seq<Entry>, i: nat)
    requires i < |b|
    ensures b[i].slot in SlotBag(b)
  {
    BagSplit(b, i);
  }

  lemma {:induction false} BagFrom(b: seq<Entry>, s: int) returns (i: nat)
    requires s in SlotBag(b)
    ensures i < |b| && b[i].slot == s
  {
    if Last(b).slot == s { i := |b| - 1; } else { i := BagFrom(Init(b), s); }
  }

  /** Two different items with one slot make its multiplicity at least two. */
  lemma {:induction false} BagTwice(b: seq<Entry>, i: nat, j: nat)
    requires i < j < |b| && b[i].slot == b[j].slot
    ensures SlotBag(b)[b[i].slot] >= 2
  {
    BagSplit(b, j);
    assert DropAt(b, j)[i] == b[i];
    BagMember(DropAt(b, j), i);
  }

  /** All items unpinned and ready: what a restored index looks like. */
  function AsEntries(es: seq<(Key, int)>): (b: seq<Entry>)
    ensures |b| == |es|
    ensures forall i :: 0 <= i < |es| ==> b[i] == Entry(es[i].0, es[i].1, 0)
  {
    seq(|es|, i requires 0 <= i < |es| => Entry(es[i].0, es[i].1, 0))
  }

  lemma {:induction false} AsEntriesReady(es: seq<(Key, int)>)
    ensures ReadyPairs(AsEntries(es)) == es
    ensures CountRef(AsEntries(es), 0) == |es| && CountRef(AsEntries(es), -1) == 0
  {
    if es != [] {
      assert Init(AsEntries(es)) == AsEntries(Init(es));
      AsEntriesReady(Init(es));
      assert es == Init(es) + [Last(es)];
    }
  }

  // ---------------------------------------------------------------- bytes.hex / bytes.fromhex

  function HexDigit(n: int): char
    requires 0 <= n < 16
  {
    if n < 10 then ('0' as int + n) as char else ('a' as int + n - 10) as char
  }

  function DigitValue(c: char): (v: Option<int>)
    ensures v.Some? ==> 0 <= v.value < 16
  {
    if '0' <= c <= '9' then Some(c as int - '0' as int)
    else if 'a' <= c <= 'f' then Some(c as int - 'a' as int + 10)
    else if 'A' <= c <= 'F' then Some(c as int - 'A' as int + 10)
    else None
  }

  predicate HexSpace(c: char) {
    c == ' ' || '\t' as int <= c as int <= '\r' as int
  }

  function ToHex(k: Key): string {
    if k == [] then "" else [HexDigit(k[0] / 16), HexDigit(k[0] % 16)] + ToHex(k[1..])
  }

  /** Two lower-case hex digits for every byte, the high one first. */
  lemma {:induction false} ToHexDigits(k: Key, i: nat)
    requires i < |k|
    ensures |ToHex(k)| == 2 * |k|
    ensures ToHex(k)[2 * i] == "0123456789abcdef"[k[i] / 16]
    ensures ToHex(k)[2 * i + 1] == "0123456789abcdef"[k[i] % 16]
    decreases |k|
  {
    HexDigitIs(k[0] / 16);
    HexDigitIs(k[0] % 16);
    var rest := ToHex(k[1..]);
    assert ToHex(k) == [HexDigit(k[0] / 16), HexDigit(k[0] % 16)] + rest;
    if i > 0 {
      ToHexDigits(k[1..], i - 1);
      assert ToHex(k)[2 * i] == rest[2 * (i - 1)] && ToHex(k)[2 * i + 1] == rest[2 * (i - 1) + 1];
    } else if |k| > 1 {
      ToHexDigits(k[1..], 0);
    } else {
      assert rest == "";
    }
  }

  lemma {:induction false} HexDigitIs(n: int)
    requires 0 <= n < 16
    ensures HexDigit(n) == "0123456789abcdef"[n]
  {
  }

  /** Pairs of hex digits, with ASCII whitespace allowed between pairs; None is the ValueError. */
  function FromHex(s: string): Option<Key> {
    if s == "" then Some([])
    else if HexSpace(s[0]) then FromHex(s[1..])
    else if |s| < 2 then None
    else
      match (DigitValue(s[0]), DigitValue(s[1]))
      case (Some(h), Some(l)) =>
        (match FromHex(s[2..])
         case Some(rest) => Some([16 * h + l] + rest)
         case None => None)
      case _ => None
  }

  lemma {:induction false} DigitBack(n: int)
    requires 0 <= n < 16
    ensures !HexSpace(HexDigit(n)) && DigitValue(HexDigit(n)) == Some(n)
  {
  }

  lemma {:induction false} DecodeByte(h: int, l: int, rest: string)
    requires 0 <= h < 16 && 0 <= l < 16 && FromHex(rest).Some?
    ensures FromHex([HexDigit(h), HexDigit(l)] + rest) == Some([16 * h + l] + FromHex(rest).value)
  {
    var s := [HexDigit(h), HexDigit(l)] + rest;
    DigitBack(h);
    DigitBack(l);
    assert s[0] == HexDigit(h) && s[1] == HexDigit(l) && s[2..] == rest;
  }

  lemma {:induction false} HexRoundTrip(k: Key)
    ensures FromHex(ToHex(k)) == Some(k)
  {
    if k != [] {
      HexRoundTrip(k[1..]);
      var h, l, rest := k[0] / 16, k[0] % 16, ToHex(k[1..]);
      assert 16 * h + l == k[0];
      DecodeByte(h, l, rest);
      assert ToHex(k) == [HexDigit(h), HexDigit(l)] + rest;
      assert k == [k[0]] + k[1..];
    }
  }

  /** Text with its whitespace removed and its letters in lower case. */
  function Plain(s: string): string {
    if s == "" then ""
    else
      var c := s[0];
      (if HexSpace(c) then "" else if 'A' <= c <= 'F' then [(c as int + 32) as char] else [c]) + Plain(s[1..])
  }

  lemma {:induction false} PlainDigit(c: char, rest: string)
    requires DigitValue(c).Some?
    ensures Plain([c] + rest) == [HexDigit(DigitValue(c).value)] + Plain(rest)
  {
    assert ([c] + rest)[1..] == rest;
  }

  /** What decodes is the hex form of its value, up to whitespace and letter case. */
  lemma {:induction false} FromHexSound(s: string)
    requires FromHex(s).Some?
    ensures Plain(s) == ToHex(FromHex(s).value)
  {
    if s != "" {
      if HexSpace(s[0]) {
        FromHexSound(s[1..]);
      } else {
        FromHexSound(s[2..]);
        PlainPair(s);
        SplitByte(DigitValue(s[0]).value, DigitValue(s[1]).value, FromHex(s[2..]).value);
      }
    }
  }

  lemma {:induction false} PlainPair(s: string)
    requires |s| >= 2 && DigitValue(s[0]).Some? && DigitValue(s[1]).Some?
    ensures Plain(s) == [HexDigit(DigitValue(s[0]).value), HexDigit(DigitValue(s[1]).value)] + Plain(s[2..])
  {
    PlainDigit(s[0], s[1..]);
    PlainDigit(s[1], s[2..]);
    assert s == [s[0]] + s[1..] && s[1..] == [s[1]] + s[2..];
  }

  lemma {:induction false} SplitByte(h: int, l: int, rest: Key)
    requires 0 <= h < 16 && 0 <= l < 16
    ensures ToHex([16 * h + l] + rest) == [HexDigit(h), HexDigit(l)] + ToHex(rest)
  {
    var b := 16 * h + l;
    assert b / 16 == h && b % 16 == l;
    assert ([b] + rest)[1..] == rest;
  }

  predicate IsHexDigit(c: char) {
    '0' <= c <= '9' || 'a' <= c <= 'f' || 'A' <= c <= 'F'
  }

  /** A text without whitespace decodes exactly when it is digits, an even number of them. */
  lemma {:induction false} FromHexIff(s: string)
    requires forall i :: 0 <= i < |s| ==> !HexSpace(s[i])
    ensures FromHex(s).Some? <==> |s| % 2 == 0 && forall i :: 0 <= i < |s| ==> IsHexDigit(s[i])
  {
    if |s| >= 2 {
      var rest := s[2..];
      FromHexIff(rest);
      assert forall i :: 0 <= i < |rest| ==> rest[i] == s[i + 2];
      assert forall i :: 2 <= i < |s| ==> s[i] == rest[i - 2];
    }
  }

  /** Whitespace before a byte changes nothing. */
  lemma {:induction false} FromHexSkips(c: char, s: string)
    requires c == ' ' || c == '\t' || c == '\n' || c == '\r'
    ensures FromHex([c] + s) == FromHex(s)
  {
    assert ([c] + s)[1..] == s;
  }
}
