/** The encoder writes exactly the meaning of a value: round trip, injectivity and freedom from order. */
module JsonProofs {
  import opened Common
  import opened Text
  import opened Json

  // ----- the decoder undoes the writer -----

  lemma ReadControl(c: char, rest: string)
    requires c < ' '
    ensures ReadChar("\\u" + Fixed(Hex, c as int, 4) + rest) == Some((c, rest))
  {
    var digits := Fixed(Hex, c as int, 4);
    var s := "\\u" + digits + rest;
    assert s[2..6] == digits && s[6..] == rest;
    assert Pow(16, 2) == 256 && Pow(16, 4) > 32;
    FixedRecovers(Hex, c as int, 4);
    hide Fixed, FixedValue;
    forall i | 2 <= i < 6 ensures IsHexDigit(s[i]) {
      assert s[i] == digits[i - 2];
    }
  }

  lemma ReadEscaped(c: char, rest: string)
    ensures ReadChar(EscapeChar(c) + rest) == Some((c, rest))
    ensures (EscapeChar(c) + rest)[0] != '"'
  {
    hide Fixed, FixedValue;
    var s := EscapeChar(c) + rest;
    if |EscapeChar(c)| == 6 {
      ReadControl(c, rest);
    } else if |EscapeChar(c)| == 2 {
      assert s[2..] == rest;
    } else {
      assert s[1..] == rest;
    }
  }

  lemma {:induction false} ReadWrittenTail(t: string, rest: string)
    ensures ReadTail(WriteTail(t) + rest) == Some((t, rest))
  {
    if t == "" {
      assert (WriteTail(t) + rest)[1..] == rest;
    } else {
      var more := WriteTail(t[1..]) + rest;
      assert WriteTail(t) + rest == EscapeChar(t[0]) + more;
      ReadEscaped(t[0], more);
      ReadWrittenTail(t[1..], rest);
      assert [t[0]] + t[1..] == t;
    }
  }

  lemma ReadLiteral(literal: string, rest: string)
    requires literal == "null" || literal == "true" || literal == "false"
    ensures ReadScalar(literal + rest)
         == Some((if literal == "null" then Null else Boolean(literal == "true"), rest))
  {
    var s := literal + rest;
    assert literal <= s && s[|literal|..] == rest;
    assert s[0] == literal[0];
  }

  lemma ReadNumber(n: int, rest: string)
    requires EndsNumber(rest)
    ensures ReadScalar(Signed(n) + rest) == Some((Number(n), rest))
  {
    var s := Signed(n) + rest;
    SignedRead(n, rest);
    assert s[0] == Signed(n)[0];
    if n < 0 {
      assert s[1] == Decimal(-n)[0];
    }
  }

  lemma ReadString(t: string, rest: string)
    ensures ReadScalar(WriteString(t) + rest) == Some((String(t), rest))
  {
    var s := WriteString(t) + rest;
    assert s[0] == '"' && s[1..] == WriteTail(t) + rest;
    ReadWrittenTail(t, rest);
  }

  lemma ReadWrittenScalar(v: Value, rest: string)
    requires EndsNumber(rest) && !v.Array? && !v.Object?
    ensures Read(Write(v) + rest) == Some((v, rest))
  {
    var s := Write(v) + rest;
    assert s[0] == Write(v)[0];
    match v
    case Null => ReadLiteral("null", rest);
    case Boolean(b) => ReadLiteral(if b then "true" else "false", rest);
    case Number(n) => ReadNumber(n, rest);
    case String(t) => ReadString(t, rest);
  }

  /** What follows a value never reads as more digits of a number. */
  lemma {:induction false} ReadWritten(v: Value, rest: string)
    requires EndsNumber(rest)
    ensures Read(Write(v) + rest) == Some((v, rest))
    decreases v, 0
  {
    match v
    case Array(items) =>
      if items != [] {
        ReadWrittenItems(items, rest);
        FirstChar(items[0]);
      }
      ReadBracketed(items, rest);
    case Object(members) =>
      if members != [] {
        ReadWrittenMembers(members, rest);
      }
      ReadBraced(members, rest);
    case _ => ReadWrittenScalar(v, rest);
  }

  lemma ReadBracketed(items: seq<Value>, rest: string)
    requires items != [] ==> ReadItems(WriteItems(items) + rest) == Some((items, rest))
    requires items != [] ==> Write(items[0])[0] != ']'
    ensures Read(Write(Array(items)) + rest) == Some((Array(items), rest))
  {
    hide ReadItems;
    var inside := (if items == [] then "]" else WriteItems(items)) + rest;
    assert Write(Array(items)) + rest == "[" + inside;
    assert ("[" + inside)[1..] == inside;
    if items == [] {
      assert inside[0] == ']' && inside[1..] == rest;
    } else {
      assert inside[0] == Write(items[0])[0];
    }
    assert ReadArray(inside) == Some((Array(items), rest));
  }

  lemma ReadBraced(members: seq<Member>, rest: string)
    requires members != [] ==> ReadMembers(WriteMembers(members) + rest) == Some((members, rest))
    ensures Read(Write(Object(members)) + rest) == Some((Object(members), rest))
  {
    hide WriteMembers, ReadMembers;
    var inside := (if members == [] then "}" else WriteMembers(members)) + rest;
    assert Write(Object(members)) + rest == "{" + inside;
    assert ("{" + inside)[1..] == inside;
    if members == [] {
      assert inside[0] == '}' && inside[1..] == rest;
    } else {
      assert inside[0] == '"' by { OpeningQuote(members); }
    }
    assert ReadObject(inside) == Some((Object(members), rest));
  }

  lemma OpeningQuote(members: seq<Member>)
    requires members != []
    ensures WriteMembers(members)[0] == '"'
  {
    assert WriteString(members[0].key)[0] == '"';
  }

  lemma FirstChar(v: Value)
    ensures Write(v)[0] != ']' && Write(v)[0] != '}'
  {
    if v.Number? {
      assert IsDigit(Write(v)[0]) || Write(v)[0] == '-';
    }
  }

  lemma {:induction false} ReadWrittenItems(items: seq<Value>, rest: string)
    requires items != []
    ensures ReadItems(WriteItems(items) + rest) == Some((items, rest))
    decreases items, 1
  {
    hide Write, Read;
    var after := (if |items| == 1 then "]" else "," + WriteItems(items[1..])) + rest;
    assert WriteItems(items) + rest == Write(items[0]) + after;
    ReadWritten(items[0], after);
    if |items| == 1 {
      assert after[0] == ']' && after[1..] == rest && items == [items[0]];
    } else {
      assert after[0] == ',' && after[1..] == WriteItems(items[1..]) + rest;
      ReadWrittenItems(items[1..], rest);
      assert [items[0]] + items[1..] == items;
    }
  }

  lemma {:induction false} ReadWrittenMembers(members: seq<Member>, rest: string)
    requires members != []
    ensures ReadMembers(WriteMembers(members) + rest) == Some((members, rest))
    decreases members, 1
  {
    hide Write, WriteMembers, WriteString, Read, ReadMembers;
    var m, text := members[0], Write(members[0].value);
    var after := (if |members| == 1 then "}" else "," + WriteMembers(members[1..])) + rest;
    MembersLayout(members, rest);
    ReadWritten(m.value, after);
    if |members| == 1 {
      assert after[0] == '}' && after[1..] == rest && members == [m];
      ReadLastMember(m, text, after);
    } else {
      assert after[0] == ',' && after[1..] == WriteMembers(members[1..]) + rest;
      ReadWrittenMembers(members[1..], rest);
      ReadFirstMember(m, text, after, members[1..], rest);
      assert [m] + members[1..] == members;
    }
  }

  lemma MembersLayout(members: seq<Member>, rest: string)
    requires members != []
    ensures var after := (if |members| == 1 then "}" else "," + WriteMembers(members[1..])) + rest;
            WriteMembers(members) + rest
            == WriteString(members[0].key) + (":" + (Write(members[0].value) + after))
  {
    Regroup(WriteString(members[0].key), ":", Write(members[0].value),
            if |members| == 1 then "}" else "," + WriteMembers(members[1..]), rest);
  }

  lemma ReadLastMember(m: Member, text: string, after: string)
    requires Read(text + after) == Some((m.value, after))
    requires after != "" && after[0] == '}'
    ensures ReadMembers(WriteString(m.key) + (":" + (text + after))) == Some(([m], after[1..]))
  {
    ReadKey(m.key, ":" + (text + after));
    assert (":" + (text + after))[1..] == text + after;
  }

  lemma ReadFirstMember(m: Member, text: string, after: string, members: seq<Member>, rest: string)
    requires Read(text + after) == Some((m.value, after))
    requires after != "" && after[0] == ',' && ReadMembers(after[1..]) == Some((members, rest))
    ensures ReadMembers(WriteString(m.key) + (":" + (text + after))) == Some(([m] + members, rest))
  {
    ReadKey(m.key, ":" + (text + after));
    assert (":" + (text + after))[1..] == text + after;
  }

  lemma ReadKey(key: string, rest: string)
    ensures var s := WriteString(key) + rest; s[0] == '"' && ReadTail(s[1..]) == Some((key, rest))
  {
    assert (WriteString(key) + rest)[1..] == WriteTail(key) + rest;
    ReadWrittenTail(key, rest);
  }

  // ----- sorting the keys keeps the meaning and forgets the order -----

  ghost predicate Ascending(members: seq<Member>) {
    forall i, j :: 0 <= i < j < |members| ==> Less(members[i].key, members[j].key)
  }

  lemma {:induction false} InsertAscending(m: Member, members: seq<Member>)
    requires Ascending(members)
    requires forall i :: 0 <= i < |members| ==> members[i].key != m.key
    ensures Ascending(Insert(m, members))
  {
    if members != [] {
      LessTotal(m.key, members[0].key);
      if Less(m.key, members[0].key) {
        forall j | 1 <= j < |members| ensures Less(m.key, members[j].key) {
          LessTransitive(m.key, members[0].key, members[j].key);
        }
      } else {
        var rest := Insert(m, members[1..]);
        InsertAscending(m, members[1..]);
        forall j | 0 <= j < |rest| ensures Less(members[0].key, rest[j].key) {
          assert rest[j] in multiset(rest);
          assert rest[j] == m || rest[j] in members[1..];
        }
      }
    }
  }

  function Sorted(m: Member): Member {
    Member(m.key, SortKeys(m.value))
  }

  /** Sorting a dict only rearranges its members. */
  lemma {:induction false} SortMembersContents(members: seq<Member>, m: Member)
    ensures m in SortMembers(members) <==> exists i :: 0 <= i < |members| && m == Sorted(members[i])
  {
    if members != [] {
      var rest := SortMembers(members[1..]);
      var all := SortMembers(members);
      SortMembersContents(members[1..], m);
      assert m in all <==> m in multiset(all);
      assert m in all <==> m == Sorted(members[0]) || m in rest;
      if i :| 0 <= i < |members| && m == Sorted(members[i]) {
        assert i > 0 ==> m == Sorted(members[1..][i - 1]);
      }
      if i :| 0 <= i < |members| - 1 && m == Sorted(members[1..][i]) {
        assert m == Sorted(members[i + 1]);
      }
    }
  }

  lemma {:induction false} SortMembersAscending(members: seq<Member>)
    requires UniqueKeys(Object(members))
    ensures Ascending(SortMembers(members))
  {
    if members != [] {
      SortMembersAscending(members[1..]);
      forall m | m in SortMembers(members[1..]) ensures m.key != members[0].key {
        SortMembersContents(members[1..], m);
      }
      InsertAscending(Sorted(members[0]), SortMembers(members[1..]));
    }
  }

  /** A dict means the mapping from its keys to the meanings of their values. */
  lemma {:induction false} LookUp(members: seq<Member>, key: string)
    requires forall i, j :: 0 <= i < j < |members| ==> members[i].key != members[j].key
    ensures key in DenoteMembers(members) <==> HasKey(members, key)
    ensures forall i :: 0 <= i < |members| && members[i].key == key
              ==> DenoteMembers(members)[key] == Denote(members[i].value)
  {
    if members != [] {
      LookUp(members[1..], key);
      if i :| 0 <= i < |members| && members[i].key == key {
        assert i > 0 ==> members[1..][i - 1].key == key;
      }
    }
  }

  lemma {:induction false} ItemAt(items: seq<Value>, i: nat)
    requires i < |items|
    ensures SortItems(items)[i] == SortKeys(items[i])
    ensures DenoteItems(items)[i] == Denote(items[i])
  {
    if i > 0 {
      ItemAt(items[1..], i - 1);
    }
  }

  lemma MemberAt(members: seq<Member>, i: nat)
    requires i < |members| && UniqueKeys(Object(members))
    ensures Sorted(members[i]) in SortMembers(members)
    ensures members[i].key in DenoteMembers(members)
    ensures DenoteMembers(members)[members[i].key] == Denote(members[i].value)
  {
    SortMembersContents(members, Sorted(members[i]));
    LookUp(members, members[i].key);
  }

  lemma SameKeys(members: seq<Member>, key: string)
    requires UniqueKeys(Object(members))
    ensures HasKey(SortMembers(members), key) <==> HasKey(members, key)
  {
    var sorted := SortMembers(members);
    if i :| 0 <= i < |sorted| && sorted[i].key == key {
      SortMembersContents(members, sorted[i]);
    }
    if i :| 0 <= i < |members| && members[i].key == key {
      SortMembersContents(members, Sorted(members[i]));
    }
  }

  lemma AscendingIsUnique(members: seq<Member>)
    requires Ascending(members)
    ensures forall i, j :: 0 <= i < j < |members| ==> members[i].key != members[j].key
  {
    forall i, j | 0 <= i < j < |members| ensures members[i].key != members[j].key {
      LessTotal(members[i].key, members[j].key);
    }
  }

  lemma {:induction false} SortKeepsMeaning(v: Value)
    requires UniqueKeys(v)
    ensures Denote(SortKeys(v)) == Denote(v)
  {
    match v
    case Array(items) =>
      forall i | 0 <= i < |items| ensures DenoteItems(SortItems(items))[i] == DenoteItems(items)[i] {
        ItemAt(items, i);
        ItemAt(SortItems(items), i);
        SortKeepsMeaning(items[i]);
      }
    case Object(members) =>
      var sorted := SortMembers(members);
      SortMembersAscending(members);
      AscendingIsUnique(sorted);
      forall key ensures key in DenoteMembers(sorted) <==> key in DenoteMembers(members) {
        LookUp(sorted, key);
        LookUp(members, key);
        SameKeys(members, key);
      }
      forall key | key in DenoteMembers(members)
        ensures DenoteMembers(sorted)[key] == DenoteMembers(members)[key]
      {
        LookUp(members, key);
        var i :| 0 <= i < |members| && members[i].key == key;
        MemberAt(members, i);
        var j :| 0 <= j < |sorted| && sorted[j] == Sorted(members[i]);
        LookUp(sorted, key);
        SortKeepsMeaning(members[i].value);
      }
      assert DenoteMembers(sorted) == DenoteMembers(members);
    case _ =>
  }

  lemma Inhabited(members: seq<Member>)
    ensures members == [] || exists m :: m in members
  {
    assert members == [] || members[0] in members;
  }

  /** Two dicts in key order with the same members are the same list. */
  lemma {:induction false} AscendingDetermined(a: seq<Member>, b: seq<Member>)
    requires Ascending(a) && Ascending(b)
    requires forall m :: m in a <==> m in b
    ensures a == b
  {
    if a == [] {
      Inhabited(b);
    } else {
      assert a[0] in b && b != [] && b[0] in a;
      var i :| 0 <= i < |b| && b[i] == a[0];
      var j :| 0 <= j < |a| && a[j] == b[0];
      LessTotal(a[0].key, b[0].key);
      assert a[0] == b[0];
      AscendingIsUnique(a);
      AscendingIsUnique(b);
      forall m ensures m in a[1..] <==> m in b[1..] {
        assert a == [a[0]] + a[1..] && b == [b[0]] + b[1..];
        assert m in a <==> m == a[0] || m in a[1..];
        assert m in b <==> m == b[0] || m in b[1..];
      }
      AscendingDetermined(a[1..], b[1..]);
      assert a == [a[0]] + a[1..] && b == [b[0]] + b[1..];
    }
  }

  lemma {:induction false} SortDeterminedByMeaning(a: Value, b: Value)
    requires UniqueKeys(a) && UniqueKeys(b) && Denote(a) == Denote(b)
    ensures SortKeys(a) == SortKeys(b)
    decreases a
  {
    match a
    case Array(items) =>
      forall i | 0 <= i < |items| ensures SortItems(items)[i] == SortItems(b.items)[i] {
        ItemAt(items, i);
        ItemAt(b.items, i);
        SortDeterminedByMeaning(items[i], b.items[i]);
      }
    case Object(members) =>
      SortMembersAscending(members);
      SortMembersAscending(b.members);
      forall m ensures m in SortMembers(members) <==> m in SortMembers(b.members) {
        SortMembersContents(members, m);
        SortMembersContents(b.members, m);
        forall i | 0 <= i < |members| && m == Sorted(members[i]) ensures m in SortMembers(b.members) {
          MemberAt(members, i);
          LookUp(b.members, m.key);
          var j :| 0 <= j < |b.members| && b.members[j].key == m.key;
          SortDeterminedByMeaning(members[i].value, b.members[j].value);
          MemberAt(b.members, j);
        }
        forall j | 0 <= j < |b.members| && m == Sorted(b.members[j]) ensures m in SortMembers(members) {
          MemberAt(b.members, j);
          LookUp(members, m.key);
          var i :| 0 <= i < |members| && members[i].key == m.key;
          MemberAt(members, i);
          SortDeterminedByMeaning(members[i].value, b.members[j].value);
        }
      }
      AscendingDetermined(SortMembers(members), SortMembers(b.members));
    case _ =>
  }

  // ----- the order of the keys, and the escapes -----

  /** By code point: a proper prefix comes first, and otherwise the smaller character at the first difference. */
  ghost predicate ByCodePoint(s: string, t: string) {
    (|s| < |t| && s == t[..|s|]) || exists k :: DifferAt(s, t, k)
  }

  ghost predicate DifferAt(s: string, t: string, k: int) {
    0 <= k < |s| && k < |t| && s[..k] == t[..k] && s[k] < t[k]
  }

  lemma {:induction false} LessIsByCodePoint(s: string, t: string)
    ensures Less(s, t) <==> ByCodePoint(s, t)
  {
    if s != "" && t != "" {
      LessIsByCodePoint(s[1..], t[1..]);
      FirstDifference(s, t);
    } else {
      assert s == "" ==> t[..0] == "";
    }
  }

  lemma FirstDifference(s: string, t: string)
    requires s != "" && t != ""
    ensures ByCodePoint(s, t) <==> s[0] < t[0] || (s[0] == t[0] && ByCodePoint(s[1..], t[1..]))
  {
    assert s == [s[0]] + s[1..] && t == [t[0]] + t[1..];
    if s[0] < t[0] {
      assert DifferAt(s, t, 0);
    }
    if s[0] == t[0] && |s| < |t| && s[1..] == t[1..][..|s| - 1] {
      assert t[..|s|] == [t[0]] + t[1..][..|s| - 1];
    }
    if |s| < |t| && s == t[..|s|] {
      assert s[1..] == t[1..][..|s| - 1];
    }
    if k :| DifferAt(s, t, k) {
      if k > 0 {
        assert s[..k][1..] == s[1..][..k - 1] && t[..k][1..] == t[1..][..k - 1];
        assert s[..k][0] == s[0] && t[..k][0] == t[0];
        assert DifferAt(s[1..], t[1..], k - 1);
      }
    }
    if s[0] == t[0] && exists k :: DifferAt(s[1..], t[1..], k) {
      var k :| DifferAt(s[1..], t[1..], k);
      assert s[..k + 1] == [s[0]] + s[1..][..k] && t[..k + 1] == [t[0]] + t[1..][..k];
      assert DifferAt(s, t, k + 1);
    }
  }

  /** In every dict of the value, at any depth, each key comes before the next one by code point. */
  ghost predicate InKeyOrder(v: Value)
    decreases v
  {
    match v
    case Array(items) => forall i :: 0 <= i < |items| ==> InKeyOrder(items[i])
    case Object(members) =>
      && (forall i :: 0 <= i < |members| - 1 ==> ByCodePoint(members[i].key, members[i + 1].key))
      && (forall i :: 0 <= i < |members| ==> InKeyOrder(members[i].value))
    case _ => true
  }

  /** What `sort_keys` writes is in key order. */
  lemma {:induction false} SortKeysInOrder(v: Value)
    requires UniqueKeys(v)
    ensures InKeyOrder(SortKeys(v))
    decreases v
  {
    hide ByCodePoint;
    match v
    case Array(items) =>
      forall i | 0 <= i < |items| ensures InKeyOrder(SortItems(items)[i]) {
        ItemAt(items, i);
        SortKeysInOrder(items[i]);
      }
    case Object(members) =>
      var sorted := SortMembers(members);
      SortMembersAscending(members);
      forall i | 0 <= i < |sorted| - 1 ensures ByCodePoint(sorted[i].key, sorted[i + 1].key) {
        LessIsByCodePoint(sorted[i].key, sorted[i + 1].key);
      }
      forall i | 0 <= i < |sorted| ensures InKeyOrder(sorted[i].value) {
        assert sorted[i] in sorted;
        SortMembersContents(members, sorted[i]);
        var j :| 0 <= j < |members| && sorted[i] == Sorted(members[j]);
        SortKeysInOrder(members[j].value);
      }
    case _ =>
  }

  const SHORT_ESCAPES := {'"', '\\', '\n', '\r', '\t', 8 as char, 12 as char}

  /** Only quotes, backslashes and control characters are escaped, and those with a short escape by it. */
  lemma EscapesLeast(c: char)
    ensures EscapeChar(c) == [c] <==> c >= ' ' && c != '"' && c != '\\'
    ensures |EscapeChar(c)| == 2 <==> c in SHORT_ESCAPES
    ensures |EscapeChar(c)| == 6 <==> c < ' ' && c !in SHORT_ESCAPES
  {
    hide Fixed;
  }

  // ----- main results -----

  /** A decoder recovers the meaning of every value from its canonical text. */
  lemma RoundTrip(v: Value)
    requires UniqueKeys(v)
    ensures Loads(Dumps(v)) == Some(Denote(v))
    ensures var read := Read(Dumps(v)); read.Some? && read.value.1 == "" && InKeyOrder(read.value.0)
  {
    SortKeysInOrder(v);
    ReadWritten(SortKeys(v), "");
    assert Write(SortKeys(v)) + "" == Write(SortKeys(v));
    SortKeepsMeaning(v);
  }

  /** Same text exactly when same meaning: the order of insertion never shows, everything else does. */
  lemma SameTextSameMeaning(a: Value, b: Value)
    requires UniqueKeys(a) && UniqueKeys(b)
    ensures Dumps(a) == Dumps(b) <==> Denote(a) == Denote(b)
  {
    RoundTrip(a);
    RoundTrip(b);
    if Denote(a) == Denote(b) {
      SortDeterminedByMeaning(a, b);
    }
  }
}
