/** Parsing the list of Sentinels (unsafe_set_locations of src/sentinel.c). */
module SentinelLocations {
  import opened Numbers

  datatype Sentinel = Sentinel(host: string, port: int)

  datatype Result<T> = Ok(value: T) | Err(error: nat)

  predicate IsSeparator(c: char) {
    IsSpace(c) || c == ','
  }

  lemma SeparatorsAre(c: char)
    ensures IsSeparator(c) <==> c in {',', ' ', '\t', '\n', '\U{0B}', '\U{0C}', '\r'}
  {
  }

  // ----- What is parsed -----

  function SkipSeparators(s: string): (r: string)
    ensures |r| <= |s|
  {
    if s != "" && IsSeparator(s[0]) then SkipSeparators(s[1..]) else s
  }

  // The text up to the next comma.
  function ItemLength(s: string): (n: nat)
    ensures n <= |s|
  {
    if s == "" || s[0] == ',' then 0 else 1 + ItemLength(s[1..])
  }

  // Lengths of a text without its trailing spaces, and without its trailing digits.
  function NoSpaces(t: string): (n: nat)
    ensures n <= |t|
  {
    if t != "" && IsSpace(t[|t| - 1]) then NoSpaces(t[..|t| - 1]) else |t|
  }

  function NoDigits(t: string): (n: nat)
    ensures n <= |t| && forall i | n <= i < |t| :: IsDigit(t[i])
  {
    if t != "" && IsDigit(t[|t| - 1]) then NoDigits(t[..|t| - 1]) else |t|
  }

  // The result of strtol is stored in 32 bits.
  function PortOf(digits: string): int {
    (StrToL(digits) + 0x8000_0000) % 0x1_0000_0000 - 0x8000_0000
  }

  // One item, which does not start with a space: a host, a colon, digits and spaces.
  function ItemOf(t: string): Result<Sentinel> {
    var end := NoSpaces(t);
    var colon := NoDigits(t[..end]);
    if t == "" then Err(10)
    else if colon == 0 || t[colon - 1] != ':' then Err(20)
    else if colon == end then Err(30)
    else if !(0 <= PortOf(t[colon..end]) <= 65536) then Err(40)
    else if colon == 1 then Err(50)
    else Ok(Sentinel(t[..colon - 1], PortOf(t[colon..end])))
  }

  function Prepend(items: seq<Sentinel>, result: Result<seq<Sentinel>>): Result<seq<Sentinel>> {
    if result.Ok? then Ok(items + result.value) else result
  }

  function Parse(s: string): Result<seq<Sentinel>>
    decreases |s|
  {
    if s == "" then Ok([])
    else
      var t := SkipSpaces(s);
      var n := ItemLength(t);
      var item := ItemOf(t[..n]);
      if item.Err? then Err(item.error) else Prepend([item.value], Parse(SkipSeparators(t[n..])))
  }

  // ----- The parser -----

  // The backward scan for the colon of a non-empty item between p and q.
  method FindColon(s: string, p: nat, q: nat) returns (r: nat, ghost end: nat)
    requires p < q <= |s| && !IsSpace(s[p])
    ensures p <= r < end <= q && end - p == NoSpaces(s[p..q])
    ensures (forall i | end <= i < q :: IsSpace(s[i])) && forall i | r < i < end :: IsDigit(s[i])
    ensures var colon := NoDigits(s[p..end]);
      if s[r] == ':' then colon == r + 1 - p else colon == 0 || s[p + colon - 1] != ':'
  {
    hide NoSpaces, NoDigits;
    r := q - 1;
    while r > p && IsSpace(s[r])
      invariant p <= r < q && NoSpaces(s[p..q]) == NoSpaces(s[p..r + 1])
      invariant forall i | r < i < q :: IsSpace(s[i])
    {
      NoSpacesStep(s, p, r);
      r := r - 1;
    }
    NoSpacesStep(s, p, r);
    end := r + 1;
    while r > p && IsDigit(s[r])
      invariant p <= r < end && NoDigits(s[p..end]) == NoDigits(s[p..r + 1])
      invariant forall i | r < i < end :: IsDigit(s[i])
    {
      NoDigitsStep(s, p, r);
      r := r - 1;
    }
    NoDigitsStep(s, p, r);
    if r == p {
      NoDigitsNone(s[p..p]);
    }
  }

  lemma Slice(s: string, p: nat, q: nat, a: nat, b: nat)
    requires p <= a <= b <= q <= |s|
    ensures s[p..q][a - p..b - p] == s[a..b]
    ensures a == p ==> s[p..q][..b - p] == s[a..b]
  {
    var u, v := s[p..q][a - p..b - p], s[a..b];
    assert |u| == |v|;
    forall i | 0 <= i < |u| ensures u[i] == v[i] {
      assert u[i] == s[p..q][a - p + i];
    }
    assert s[p..q][0..b - p] == s[p..q][..b - p];
  }

  // One item, between p and q.
  method ParseItem(s: string, p: nat, q: nat) returns (result: Result<Sentinel>)
    requires p <= q <= |s| && (p < q ==> !IsSpace(s[p])) && (q == |s| || s[q] == ',')
    ensures result == ItemOf(s[p..q])
  {
    hide PortOf, NoSpaces, NoDigits;
    if p == q {
      return Err(10);
    }
    var r: nat;
    ghost var end: nat;
    r, end := FindColon(s, p, q);
    Slice(s, p, q, p, end);
    if s[r] != ':' {
      return Err(20);
    }
    r := r + 1;
    if !(r < |s| && IsDigit(s[r])) {
      return Err(30);
    }
    // strtol
    var e := r;
    while e < |s| && IsDigit(s[e])
      invariant r <= e <= end
    {
      e := e + 1;
    }
    Slice(s, p, q, r, e);
    var port := PortOf(s[r..e]);
    if r == e || (e < |s| && s[e] != ',' && !IsSpace(s[e])) || port < 0 || port > 65536 {
      return Err(40);
    }
    if r - p <= 1 {
      return Err(50);
    }
    Slice(s, p, q, p, r - 1);
    return Ok(Sentinel(s[p..r - 1], port));
  }

  lemma NoSpacesStep(s: string, p: nat, r: nat)
    requires p <= r < |s|
    ensures NoSpaces(s[p..r + 1]) == if IsSpace(s[r]) then NoSpaces(s[p..r]) else r + 1 - p
  {
    assert s[p..r + 1][..r - p] == s[p..r];
  }

  lemma NoDigitsStep(s: string, p: nat, r: nat)
    requires p <= r < |s|
    ensures NoDigits(s[p..r + 1]) == if IsDigit(s[r]) then NoDigits(s[p..r]) else r + 1 - p
  {
    assert s[p..r + 1][..r - p] == s[p..r];
  }

  lemma NoDigitsNone(t: string)
    requires t == ""
    ensures NoDigits(t) == 0
  {
  }

  // unsafe_set_locations: all the items, or none of them and an error.
  method SetLocations(s: string) returns (sentinels: seq<Sentinel>, error: nat)
    ensures Parse(s) == if error == 0 then Ok(sentinels) else Err(error)
    ensures error != 0 ==> sentinels == []
  {
    hide ItemOf, SkipSpaces, SkipSeparators, ItemLength;
    sentinels, error := [], 0;
    var p := 0;
    assert s[0..] == s;
    NothingBefore(Parse(s));
    while p < |s|
      invariant 0 <= p <= |s| && error == 0 && Parse(s) == Prepend(sentinels, Parse(s[p..]))
      decreases |s| - p
    {
      ghost var rest := s[p..];
      p := AfterSpaces(s, p);
      var q := NextComma(s, p);
      var item := ParseItem(s, p, q);
      assert SkipSpaces(rest)[..ItemLength(SkipSpaces(rest))] == s[p..q];
      assert SkipSpaces(rest)[ItemLength(SkipSpaces(rest))..] == s[q..];
      ItemErrors(s[p..q]);
      if item.Err? {
        sentinels, error := [], item.error;
        return;
      }
      p := AfterSeparators(s, q);
      Prepended(sentinels, item.value, Parse(s[p..]));
      sentinels := sentinels + [item.value];
    }
    assert s[p..] == "" && sentinels + [] == sentinels;
  }

  lemma NothingBefore(result: Result<seq<Sentinel>>)
    ensures Prepend([], result) == result
  {
    if result.Ok? { assert [] + result.value == result.value; }
  }

  lemma Prepended(items: seq<Sentinel>, item: Sentinel, result: Result<seq<Sentinel>>)
    ensures Prepend(items, Prepend([item], result)) == Prepend(items + [item], result)
  {
    if result.Ok? { assert items + ([item] + result.value) == items + [item] + result.value; }
  }

  // What is wrong with an item that is refused: nothing there, no colon before the digits, no
  // digits after it, not a port, or no host.
  lemma ErrorsMean(host: string, digits: string, spaces: string)
    requires AllSpaces(spaces) && (forall i | 0 <= i < |digits| :: IsDigit(digits[i]))
    ensures ItemOf("") == Err(10)
    ensures host + digits != "" && (host == "" || !(IsDigit(host[|host| - 1]) || host[|host| - 1] == ':'
                                                    || IsSpace(host[|host| - 1]))) ==>
      ItemOf(host + digits + spaces) == Err(20)
    ensures ItemOf(host + ":" + spaces) == Err(30)
    ensures digits != "" && !(0 <= PortOf(digits) <= 65536) ==> ItemOf(host + ":" + digits + spaces) == Err(40)
    ensures digits != "" && 0 <= PortOf(digits) <= 65536 ==>
      ItemOf(host + ":" + digits + spaces) == if host == "" then Err(50) else Ok(Sentinel(host, PortOf(digits)))
  {
    hide NoSpaces, NoDigits, PortOf;
    NothingThere();
    if host + digits != "" && (host == "" || !(IsDigit(host[|host| - 1]) || host[|host| - 1] == ':'
                                               || IsSpace(host[|host| - 1]))) {
      WithoutColon(host, digits, spaces);
    }
    WithColon(host, "", spaces);
    assert host + ":" + "" == host + ":";
    if digits != "" {
      WithColon(host, digits, spaces);
    }
  }

  lemma NothingThere()
    ensures ItemOf("") == Err(10)
  {
  }

  lemma WithoutColon(host: string, digits: string, spaces: string)
    requires AllSpaces(spaces) && (forall i | 0 <= i < |digits| :: IsDigit(digits[i])) && host + digits != ""
    requires host == "" || !(IsDigit(host[|host| - 1]) || host[|host| - 1] == ':' || IsSpace(host[|host| - 1]))
    ensures ItemOf(host + digits + spaces) == Err(20)
  {
    hide NoSpaces, NoDigits, PortOf;
    var text := host + digits;
    var t := text + spaces;
    SpacesAfter(text, spaces);
    assert t[..|text|] == text;
    DigitsAfterHost(host, digits);
    assert host != "" ==> t[|host| - 1] == host[|host| - 1];
  }

  lemma {:induction false} DigitsAfterHost(host: string, digits: string)
    requires forall i | 0 <= i < |digits| :: IsDigit(digits[i])
    requires host == "" || !IsDigit(host[|host| - 1])
    ensures NoDigits(host + digits) == |host|
  {
    var s := host + digits;
    if digits == "" {
      assert s == host;
    } else {
      assert s[..|s| - 1] == host + digits[..|digits| - 1];
      DigitsAfterHost(host, digits[..|digits| - 1]);
    }
  }

  lemma WithColon(host: string, digits: string, spaces: string)
    requires AllSpaces(spaces) && forall i | 0 <= i < |digits| :: IsDigit(digits[i])
    ensures ItemOf(host + ":" + digits + spaces) ==
      if digits == "" then Err(30)
      else if !(0 <= PortOf(digits) <= 65536) then Err(40)
      else if host == "" then Err(50)
      else Ok(Sentinel(host, PortOf(digits)))
  {
    hide NoSpaces, NoDigits, PortOf;
    var text := host + ":" + digits;
    var t := text + spaces;
    assert digits == "" ==> text[|text| - 1] == ':';
    assert digits != "" ==> text[|text| - 1] == digits[|digits| - 1];
    SpacesAfter(text, spaces);
    assert t[..|text|] == text;
    DigitsAfterColon(host, digits);
    assert t[|host|] == ':' && t[|host| + 1..|text|] == digits && t[..|host|] == host;
  }

  lemma ItemErrors(t: string)
    ensures if ItemOf(t).Err? then ItemOf(t).error in {10, 20, 30, 40, 50} else t != ""
  {
  }

  method AfterSpaces(s: string, start: nat) returns (p: nat)
    requires start <= |s|
    ensures start <= p <= |s| && s[p..] == SkipSpaces(s[start..]) && (p < |s| ==> !IsSpace(s[p]))
  {
    p := start;
    while p < |s| && IsSpace(s[p])
      invariant start <= p <= |s| && SkipSpaces(s[start..]) == SkipSpaces(s[p..])
    {
      assert s[p..][1..] == s[p + 1..];
      p := p + 1;
    }
  }

  method NextComma(s: string, p: nat) returns (q: nat)
    requires p <= |s|
    ensures p <= q <= |s| && q - p == ItemLength(s[p..]) && (q == |s| || s[q] == ',')
  {
    q := p;
    while q < |s| && s[q] != ','
      invariant p <= q <= |s| && ItemLength(s[p..]) == q - p + ItemLength(s[q..])
    {
      assert s[q..][1..] == s[q + 1..];
      q := q + 1;
    }
  }

  method AfterSeparators(s: string, start: nat) returns (p: nat)
    requires start <= |s|
    ensures start <= p <= |s| && s[p..] == SkipSeparators(s[start..])
  {
    p := start;
    while p < |s| && IsSeparator(s[p])
      invariant start <= p <= |s| && SkipSeparators(s[start..]) == SkipSeparators(s[p..])
    {
      assert s[p..][1..] == s[p + 1..];
      p := p + 1;
    }
  }

  // ----- The round trip -----

  ghost predicate Printable(item: Sentinel) {
    item.host != "" && ',' !in item.host && !IsSpace(item.host[0]) && 0 <= item.port <= 65536
  }

  function Text(item: Sentinel): string
    requires item.port >= 0
  {
    item.host + ":" + Decimal(item.port)
  }

  ghost predicate AllSpaces(s: string) {
    forall i | 0 <= i < |s| :: IsSpace(s[i])
  }

  // What may stand between two items: commas, at least one, and spaces.
  ghost predicate IsGap(s: string) {
    ',' in s && IsTrailer(s)
  }

  ghost predicate IsTrailer(s: string) {
    forall i | 0 <= i < |s| :: IsSeparator(s[i])
  }

  ghost predicate PrintableList(items: seq<Sentinel>, gaps: seq<string>) {
    && |items| == |gaps|
    && (forall i | 0 <= i < |items| :: Printable(items[i]) && IsTrailer(gaps[i]))
    && (forall i | 0 <= i < |items| - 1 :: IsGap(gaps[i]))
  }

  // Every item followed by its gap; that of the last one may be without a comma.
  ghost function Print(items: seq<Sentinel>, gaps: seq<string>): string
    requires PrintableList(items, gaps)
  {
    if items == [] then "" else Text(items[0]) + gaps[0] + Print(items[1..], gaps[1..])
  }

  lemma PortRoundTrip(port: nat)
    requires port <= 65536
    ensures PortOf(Decimal(port)) == port
  {
    hide StrToL, Decimal;
    StrToLDecimal(port);
  }

  lemma {:induction false} DigitsAfterColon(host: string, digits: string)
    requires forall i | 0 <= i < |digits| :: IsDigit(digits[i])
    ensures NoDigits(host + ":" + digits) == |host| + 1
  {
    var s := host + ":" + digits;
    if digits == "" {
      assert s == host + ":" && s[|s| - 1] == ':';
    } else {
      assert s[..|s| - 1] == host + ":" + digits[..|digits| - 1];
      DigitsAfterColon(host, digits[..|digits| - 1]);
    }
  }

  lemma {:induction false} SpacesAfter(text: string, spaces: string)
    requires text != "" && !IsSpace(text[|text| - 1]) && AllSpaces(spaces)
    ensures NoSpaces(text + spaces) == |text|
  {
    var s := text + spaces;
    if spaces == "" {
      assert s == text;
    } else {
      assert s[..|s| - 1] == text + spaces[..|spaces| - 1];
      SpacesAfter(text, spaces[..|spaces| - 1]);
    }
  }

  lemma ItemRoundTrip(item: Sentinel, spaces: string)
    requires Printable(item) && AllSpaces(spaces)
    ensures ItemOf(Text(item) + spaces) == Ok(item)
  {
    hide NoSpaces, NoDigits, PortOf, Decimal;
    var text, digits := Text(item), Decimal(item.port);
    var t := text + spaces;
    assert text[|text| - 1] == digits[|digits| - 1];
    SpacesAfter(text, spaces);
    assert t[..|text|] == text;
    DigitsAfterColon(item.host, digits);
    PortRoundTrip(item.port);
    assert t[|item.host|] == ':' && t[|item.host| + 1..|text|] == digits && t[..|item.host|] == item.host;
  }

  lemma {:induction false} SkipAll(separators: string, rest: string)
    requires IsTrailer(separators) && (rest == "" || !IsSeparator(rest[0]))
    ensures SkipSeparators(separators + rest) == rest
  {
    if separators == "" {
      assert separators + rest == rest;
    } else {
      assert (separators + rest)[1..] == separators[1..] + rest;
      SkipAll(separators[1..], rest);
    }
  }

  lemma {:induction false} SkipLead(lead: string, rest: string)
    requires AllSpaces(lead) && rest != "" && !IsSpace(rest[0])
    ensures SkipSpaces(lead + rest) == rest
  {
    if lead == "" {
      assert lead + rest == rest;
    } else {
      assert (lead + rest)[1..] == lead[1..] + rest;
      SkipLead(lead[1..], rest);
    }
  }

  lemma {:induction false} LengthOfText(text: string, rest: string)
    requires ',' !in text
    ensures ItemLength(text + rest) == |text| + ItemLength(rest)
  {
    if text == "" {
      assert text + rest == rest;
    } else {
      assert (text + rest)[1..] == text[1..] + rest;
      LengthOfText(text[1..], rest);
    }
  }

  // The part of a gap that belongs to the item before it.
  lemma {:induction false} LengthOfGap(gap: string, rest: string)
    requires IsTrailer(gap) && (',' in gap || rest == "")
    ensures var k := ItemLength(gap + rest);
      k <= |gap| && AllSpaces(gap[..k])
  {
    if gap == "" {
      assert gap + rest == "";
    } else if gap[0] != ',' {
      assert (gap + rest)[1..] == gap[1..] + rest;
      LengthOfGap(gap[1..], rest);
      var k := ItemLength(gap + rest);
      assert gap[..k] == [gap[0]] + gap[1..][..k - 1];
    }
  }

  lemma NoCommaInText(item: Sentinel)
    requires Printable(item)
    ensures ',' !in Text(item) && Text(item) != "" && !IsSeparator(Text(item)[0])
  {
    var digits := Decimal(item.port);
    assert forall c | c in digits :: IsDigit(c);
  }

  // The first item of a printed list.
  lemma FirstItem(lead: string, item: Sentinel, gap: string, rest: string)
    requires Printable(item) && AllSpaces(lead) && IsTrailer(gap) && (',' in gap || rest == "")
    requires rest == "" || !IsSeparator(rest[0])
    ensures Parse(lead + (Text(item) + gap + rest)) == Prepend([item], Parse(rest))
  {
    hide ItemOf, ItemLength, SkipSpaces, SkipSeparators, Text, IsTrailer, Prepend;
    var text := Text(item);
    var t := text + gap + rest;
    NoCommaInText(item);
    SkipLead(lead, t);
    assert t == text + (gap + rest);
    LengthOfText(text, gap + rest);
    LengthOfGap(gap, rest);
    var k := ItemLength(gap + rest);
    var n := |text| + k;
    assert t[..n] == text + gap[..k] && t[n..] == gap[k..] + rest;
    ItemRoundTrip(item, gap[..k]);
    assert IsTrailer(gap[k..]) by { TrailerSuffix(gap, k); }
    SkipAll(gap[k..], rest);
  }

  lemma TrailerSuffix(gap: string, k: nat)
    requires k <= |gap| && IsTrailer(gap)
    ensures IsTrailer(gap[k..])
  {
  }

  lemma PrintNext(items: seq<Sentinel>, gaps: seq<string>)
    requires PrintableList(items, gaps) && |items| > 1
    ensures Print(items[1..], gaps[1..]) == Text(items[1]) + (gaps[1] + Print(items[2..], gaps[2..]))
  {
    assert items[1..][0] == items[1] && items[1..][1..] == items[2..] && gaps[1..][1..] == gaps[2..];
  }

  // Printing a list and parsing it gives back the list.
  lemma {:induction false} RoundTrip(lead: string, items: seq<Sentinel>, gaps: seq<string>)
    requires PrintableList(items, gaps) && AllSpaces(lead) && (items == [] ==> lead == "")
    ensures Parse(lead + Print(items, gaps)) == Ok(items)
    decreases |items|
  {
    hide Parse, Text, IsTrailer, AllSpaces;
    if items == [] {
      assert lead + Print(items, gaps) == "";
      NothingToParse();
      return;
    }
    var rest := Print(items[1..], gaps[1..]);
    if |items| > 1 {
      assert IsGap(gaps[0]);
      NoCommaInText(items[1]);
      PrintNext(items, gaps);
      assert rest[0] == Text(items[1])[0];
    }
    FirstItem(lead, items[0], gaps[0], rest);
    NoSpaceAtAll();
    RoundTrip("", items[1..], gaps[1..]);
    assert "" + rest == rest && [items[0]] + items[1..] == items;
  }

  lemma NothingToParse()
    ensures Parse("") == Ok([])
  {
  }

  lemma NoSpaceAtAll()
    ensures AllSpaces("")
  {
  }

  // A number that is not a port is not always refused: one that does not fit in 32 bits but
  // does in 64 is taken for another port if its low bits are one.
  lemma WrongPortAccepted(n: nat)
    ensures 0 <= PortOf(Decimal(n)) <= 65536 && PortOf(Decimal(n)) != n <==>
      0x1_0000_0000 <= n <= 0x7FFF_FFFF_FFFF_FFFF && n % 0x1_0000_0000 <= 65536
  {
    hide StrToL, Decimal;
    StrToLDecimal(n);
    Wrapped(n);
  }

  lemma Wrapped(n: nat)
    ensures var m := n % 0x1_0000_0000;
      (n + 0x8000_0000) % 0x1_0000_0000 - 0x8000_0000 == if m < 0x8000_0000 then m else m - 0x1_0000_0000
  {
    var q, m := n / 0x1_0000_0000, n % 0x1_0000_0000;
    assert n == 0x1_0000_0000 * q + m;
  }
}
