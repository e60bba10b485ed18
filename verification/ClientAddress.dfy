/** The key a client is limited under: the address no client can choose. */
module ClientAddress {
  import opened Naturals
  import Text

  function LowerAscii(s: string): string {
    seq(|s|, i requires 0 <= i < |s| => if 'A' <= s[i] <= 'Z' then s[i] - 'A' + 'a' else s[i])
  }

  /** An IPv4 peer on a dual-stack socket shows up behind this prefix. */
  function Unmapped(address: string): string {
    if |address| >= 7 && LowerAscii(address[..7]) == "::ffff:" then address[7..] else address
  }

  /** Loopback, the private IPv4 ranges and the private IPv6 ranges. */
  predicate IsPrivate(peer: string) {
    || "127." <= peer || peer == "::1" || "10." <= peer || "192.168." <= peer
    || ("172." <= peer && |peer| >= 7 && peer[6] == '.' && Block(peer[4], peer[5]))
    || (|peer| >= 2 && peer[0] in "fF" && peer[1] in "cCdD")
  }

  predicate Block(a: char, b: char) {
    (a == '1' && '6' <= b <= '9') || (a == '2' && IsDigit(b)) || (a == '3' && b in "01")
  }

  function NonEmpty(parts: seq<string>): seq<string> {
    if parts == [] then [] else (if Text.Trim(parts[0]) != "" then [Text.Trim(parts[0])] else []) + NonEmpty(parts[1..])
  }

  function Chain(header: string): seq<string> { NonEmpty(Text.Split(header, ",")) }

  /** An unknown peer address is the empty text, a missing header too. */
  function ClientKey(address: string, header: string, hops: nat): string {
    var peer := Unmapped(address);
    var chain := Chain(header);
    if (peer == "" || IsPrivate(peer)) && hops > 0 && chain != [] then
      chain[if |chain| > hops then |chain| - hops else 0]
    else if peer != "" then peer
    else if chain != [] then chain[|chain| - 1]
    else "direct"
  }

  // ---------- what the proxies append ----------

  predicate IsAddress(a: string) {
    a != "" && ',' !in a && !Text.IsSpace(a[0]) && !Text.IsSpace(a[|a| - 1])
  }

  /** Each proxy on the way appends the address that connected to it. */
  function Forwarded(header: string, seen: seq<string>): string {
    if seen == [] then header
    else
      var before := Forwarded(header, seen[..|seen| - 1]);
      (if before == "" then "" else before + ", ") + seen[|seen| - 1]
  }

  lemma {:induction false} NonEmptyConcat(a: seq<string>, b: seq<string>)
    ensures NonEmpty(a + b) == NonEmpty(a) + NonEmpty(b)
  {
    if a == [] {
      assert a + b == b;
    } else {
      assert (a + b)[1..] == a[1..] + b;
      NonEmptyConcat(a[1..], b);
    }
  }

  lemma FirstComma(x: string, i: nat)
    requires i < |x| && x[i] == ','
    ensures 0 <= Text.IndexOf(x, ",", 0) <= i
  {
    assert Text.MatchesAt(x, ",", i);
  }

  lemma SplitStep(x: string) returns (head: string, tail: string)
    requires ',' in x
    ensures ',' !in head && x == head + "," + tail && |tail| < |x|
    ensures Text.Split(x, ",") == [head] + Text.Split(tail, ",")
  {
    var k := Text.IndexOf(x, ",", 0);
    var i :| 0 <= i < |x| && x[i] == ',';
    FirstComma(x, i);
    head, tail := x[..k], x[k + 1..];
    forall j | 0 <= j < |x| && x[j] == ',' ensures k <= j {
      FirstComma(x, j);
    }
    assert x == head + "," + tail;
    Text.SplitAt(head, ",", tail);
  }

  /** Splitting a text at a comma of it splits both sides. */
  lemma {:induction false} SplitConcat(x: string, y: string)
    ensures Text.Split(x + "," + y, ",") == Text.Split(x, ",") + Text.Split(y, ",")
    decreases |x|
  {
    hide Text.Split;
    if ',' in x {
      var head, tail := SplitStep(x);
      assert x + "," + y == head + "," + (tail + "," + y);
      Text.SplitAt(head, ",", tail + "," + y);
      SplitConcat(tail, y);
    } else {
      Text.SplitAt(x, ",", y);
      Text.SplitWhole(x, ",");
    }
  }

  lemma OneLeft(part: string, a: string)
    requires Text.Trim(part) == a && a != ""
    ensures NonEmpty([part]) == [a]
  {
    assert NonEmpty([part][1..]) == [];
  }

  lemma OnePart(a: string)
    requires IsAddress(a)
    ensures Chain(a) == [a] && NonEmpty(Text.Split(" " + a, ",")) == [a]
  {
    Text.SplitWhole(a, ",");
    Text.SplitWhole(" " + a, ",");
    assert (" " + a)[1..] == a;
    assert Text.TrimStart(" " + a) == Text.TrimStart(a) == a && Text.TrimEnd(a) == a;
    OneLeft(a, a);
    OneLeft(" " + a, a);
  }

  /** A proxy adds exactly one entry, whatever the header held before. */
  lemma ChainGrows(header: string, a: string)
    requires IsAddress(a)
    ensures Chain((if header == "" then "" else header + ", ") + a) == Chain(header) + [a]
  {
    hide Text.Split, NonEmpty;
    OnePart(a);
    if header != "" {
      assert header + ", " + a == header + "," + (" " + a);
      SplitConcat(header, " " + a);
      NonEmptyConcat(Text.Split(header, ","), Text.Split(" " + a, ","));
      assert (if header == "" then "" else header + ", ") + a == header + "," + (" " + a);
    } else {
      EmptyChain();
      assert (if header == "" then "" else header + ", ") + a == a;
    }
  }

  lemma EmptyChain()
    ensures Chain("") == []
  {
    Text.SplitWhole("", ",");
  }

  lemma {:induction false} ForwardedChain(header: string, seen: seq<string>)
    requires forall i :: 0 <= i < |seen| ==> IsAddress(seen[i])
    ensures Chain(Forwarded(header, seen)) == Chain(header) + seen
  {
    hide Chain, IsAddress;
    if seen != [] {
      var front := seen[..|seen| - 1];
      ForwardedChain(header, front);
      ChainGrows(Forwarded(header, front), seen[|seen| - 1]);
      assert front + [seen[|seen| - 1]] == seen;
    } else {
      assert Chain(header) + seen == Chain(header);
    }
  }

  // ---------- whether the client can choose its key ----------

  /** No proxy may be believed: the connection comes straight from the public network. */
  predicate IsPublic(address: string) { Unmapped(address) != "" && !IsPrivate(Unmapped(address)) }

  /** There is an address the client does not control at the place the key is taken from. */
  predicate Trustworthy(address: string, seen: seq<string>, hops: nat) {
    IsPublic(address) || 0 < hops <= |seen| || (hops == 0 && (Unmapped(address) != "" || seen != []))
  }

  /** The address at that place. */
  function TrustedKey(address: string, seen: seq<string>, hops: nat): string
    requires Trustworthy(address, seen, hops)
  {
    if IsPublic(address) then Unmapped(address)
    else if hops > 0 then seen[|seen| - hops]
    else if Unmapped(address) != "" then Unmapped(address)
    else seen[|seen| - 1]
  }

  /** Where there is a trustworthy address, it is the key, whatever the client wrote into the header. */
  lemma KeyCannotBeForged(address: string, header: string, seen: seq<string>, hops: nat)
    requires Trustworthy(address, seen, hops) && forall i :: 0 <= i < |seen| ==> IsAddress(seen[i])
    ensures ClientKey(address, Forwarded(header, seen), hops) == TrustedKey(address, seen, hops)
  {
    hide Chain, IsPrivate, Unmapped, Forwarded, IsAddress;
    ForwardedChain(header, seen);
  }

  /** Where there is none, any address the client writes is the key. */
  lemma ForgedKey(address: string, seen: seq<string>, hops: nat, forged: string)
    requires !Trustworthy(address, seen, hops)
    requires IsAddress(forged) && forall i :: 0 <= i < |seen| ==> IsAddress(seen[i])
    ensures ClientKey(address, Forwarded(forged, seen), hops) == forged
  {
    hide Chain, IsPrivate, Unmapped, Forwarded, IsAddress;
    ForwardedChain(forged, seen);
    OnePart(forged);
  }

  /** The key is the same for all headers a client can send. */
  ghost predicate HeaderDoesNotMatter(address: string, seen: seq<string>, hops: nat) {
    forall one, other ::
      ClientKey(address, Forwarded(one, seen), hops) == ClientKey(address, Forwarded(other, seen), hops)
  }

  /** The client cannot influence its key if and only if there is a trustworthy address. */
  lemma ForgeryExact(address: string, seen: seq<string>, hops: nat)
    requires forall i :: 0 <= i < |seen| ==> IsAddress(seen[i])
    ensures HeaderDoesNotMatter(address, seen, hops) <==> Trustworthy(address, seen, hops)
  {
    hide ClientKey, Trustworthy, Forwarded;
    if Trustworthy(address, seen, hops) {
      forall one, other
        ensures ClientKey(address, Forwarded(one, seen), hops) == ClientKey(address, Forwarded(other, seen), hops)
      {
        KeyCannotBeForged(address, one, seen, hops);
        KeyCannotBeForged(address, other, seen, hops);
      }
    } else {
      ForgedKey(address, seen, hops, "a");
      ForgedKey(address, seen, hops, "b");
    }
  }

  // ---------- which peers are private ----------

  /** An IPv4 address in dotted form. */
  function Dotted(a: nat, b: nat, c: nat, d: nat): string {
    Decimal(a) + "." + (Decimal(b) + "." + (Decimal(c) + "." + Decimal(d)))
  }

  lemma FirstDot(x: string, y: string, rest: string)
    requires AllDigits(x) && AllDigits(y)
    ensures x + "." <= y + "." + rest <==> x == y
  {
    var t := y + "." + rest;
    if x + "." <= t {
      assert t[..|x| + 1] == x + ".";
      assert forall i :: 0 <= i < |x| ==> t[i] == x[i];
      assert forall i :: 0 <= i < |y| ==> t[i] == y[i];
      assert t[|x|] == '.' == t[|y|];
      assert x == t[..|x|] && y == t[..|y|];
    }
  }

  lemma Numeral(n: nat, s: string, v: nat)
    requires AllDigits(s) && Value(s) == v && s == Decimal(v)
    ensures Decimal(n) == s <==> n == v
  {
    ValueDecimal(n);
  }

  lemma KnownNumerals()
    ensures AllDigits("127") && Value("127") == 127 && Decimal(127) == "127"
    ensures AllDigits("10") && Value("10") == 10 && Decimal(10) == "10"
    ensures AllDigits("192") && Value("192") == 192 && Decimal(192) == "192"
    ensures AllDigits("168") && Value("168") == 168 && Decimal(168) == "168"
    ensures AllDigits("172") && Value("172") == 172 && Decimal(172) == "172"
  {
    Known(127, "12", "127");
    Known(10, "1", "10");
    Known(192, "19", "192");
    Known(168, "16", "168");
    Known(172, "17", "172");
  }

  lemma Known(n: nat, front: string, s: string)
    requires n >= 10 && Decimal(n / 10) == front && s == front + [Digit(n % 10)]
    ensures AllDigits(s) && Value(s) == n && Decimal(n) == s
  {
    ValueDecimal(n);
  }

  lemma StartsWith(n: nat, s: string, v: nat, rest: string)
    requires AllDigits(s) && Value(s) == v && s == Decimal(v)
    ensures s + "." <= Decimal(n) + "." + rest <==> n == v
  {
    ValueDecimal(n);
    FirstDot(s, Decimal(n), rest);
    Numeral(n, s, v);
  }

  lemma BlockOfDigits(x: nat, y: nat)
    requires x < 10 && y < 10
    ensures Block(Digit(x), Digit(y)) <==> 16 <= 10 * x + y <= 31
  {
  }

  lemma OneMoreDigit(n: nat)
    ensures Decimal(n) == (if n < 10 then "" else Decimal(n / 10)) + [Digit(n % 10)]
  {
  }

  lemma LongNumeral(b: nat)
    ensures b < 10 ==> Decimal(b) == [Digit(b)]
    ensures 10 <= b < 100 ==> Decimal(b) == [Digit(b / 10), Digit(b % 10)]
    ensures 100 <= b ==> |Decimal(b)| >= 3
  {
    hide Decimal, Digit;
    OneMoreDigit(b);
    OneMoreDigit(b / 10);
    if b >= 100 {
      OneMoreDigit(b / 10 / 10);
    }
  }

  /** The block 172.16.0.0/12 as its second number is written. */
  lemma BlockIsRange(b: nat, rest: string)
    ensures
      var t := Decimal(b) + "." + rest;
      |t| >= 3 && t[2] == '.' && Block(t[0], t[1]) <==> 16 <= b <= 31
  {
    hide Decimal, Value, Block;
    var t := Decimal(b) + "." + rest;
    ValueDecimal(b);
    LongNumeral(b);
    if b < 10 {
      assert t[1] == '.';
      SecondDigit(t);
    } else if b < 100 {
      BlockOfDigits(b / 10, b % 10);
    }
  }

  lemma SecondDigit(t: string)
    requires |t| >= 2 && t[1] == '.'
    ensures !Block(t[0], t[1])
  {
  }

  /** The private ones among the addresses in dotted form. */
  lemma PrivateExactly(a: nat, b: nat, c: nat, d: nat)
    ensures IsPrivate(Dotted(a, b, c, d)) <==>
      a == 127 || a == 10 || (a == 192 && b == 168) || (a == 172 && 16 <= b <= 31)
  {
    hide Decimal, Value, Block;
    var peer, rest, tail := Dotted(a, b, c, d), Decimal(b) + "." + (Decimal(c) + "." + Decimal(d)),
      Decimal(c) + "." + Decimal(d);
    assert peer == Decimal(a) + "." + rest && rest == Decimal(b) + "." + tail;
    KnownNumerals();
    assert "127" + "." == "127." && "10" + "." == "10." && "172" + "." == "172." && "168" + "." == "168.";
    StartsWith(a, "127", 127, rest);
    StartsWith(a, "10", 10, rest);
    StartsWith(a, "192", 192, rest);
    StartsWith(a, "172", 172, rest);
    StartsWith(b, "168", 168, tail);
    TwoNumbers(peer, a, b, tail);
    BlockIsRange(b, tail);
    ValueDecimal(a);
    assert IsDigit(peer[0]);
    if a == 172 {
      assert peer[4..] == rest;
      assert |rest| >= 3 ==> peer[4] == rest[0] && peer[5] == rest[1] && peer[6] == rest[2];
    }
  }

  lemma PrefixTwice(x: string, y: string, t: string)
    ensures x + y <= t <==> x <= t && y <= t[if |x| <= |t| then |x| else |t|..]
  {
    if x + y <= t {
      assert t[..|x| + |y|] == x + y;
      assert t[..|x|] == (x + y)[..|x|] && t[|x|..][..|y|] == (x + y)[|x|..];
    }
  }

  lemma TwoNumbers(peer: string, a: nat, b: nat, tail: string)
    requires peer == Decimal(a) + "." + (Decimal(b) + "." + tail)
    ensures "192.168." <= peer <==> a == 192 && b == 168
  {
    hide Decimal, Value;
    var rest := Decimal(b) + "." + tail;
    KnownNumerals();
    StartsWith(a, "192", 192, rest);
    StartsWith(b, "168", 168, tail);
    assert "192." == "192" + "." && "168." == "168" + "." && "192.168." == "192." + "168.";
    PrefixTwice("192.", "168.", peer);
    if a == 192 {
      assert peer[4..] == rest;
    }
  }

  /** Among the others the loopback and what starts with fc or fd in any case. */
  lemma PrivateOtherwise(peer: string)
    requires peer != "" && !IsDigit(peer[0])
    ensures IsPrivate(peer) <==>
      peer == "::1" || (|peer| >= 2 && LowerAscii(peer[..2]) == "fc") || (|peer| >= 2 && LowerAscii(peer[..2]) == "fd")
  {
    if |peer| >= 2 {
      var low := LowerAscii(peer[..2]);
      assert low == [low[0], low[1]];
    }
  }

  /** The prefix is taken off in every mixture of cases. */
  lemma UnmappedExactly(prefix: string, address: string)
    requires LowerAscii(prefix) == "::ffff:"
    ensures Unmapped(prefix + address) == address
  {
    assert |LowerAscii(prefix)| == |prefix| == 7;
    assert (prefix + address)[..7] == prefix;
  }

  lemma DottedStays(a: nat, b: nat, c: nat, d: nat)
    ensures Unmapped(Dotted(a, b, c, d)) == Dotted(a, b, c, d)
  {
    var dotted := Dotted(a, b, c, d);
    ValueDecimal(a);
    hide Decimal, Value;
    assert IsDigit(dotted[0]);
    if |dotted| >= 7 {
      assert LowerAscii(dotted[..7])[0] == dotted[0];
    }
  }

  /** Behind a gateway with a private address the key is the address of who connected to the proxy. */
  lemma BehindGateway(a: nat, b: nat, c: nat, d: nat, header: string, client: string)
    requires a == 127 || a == 10 || (a == 192 && b == 168) || (a == 172 && 16 <= b <= 31)
    requires IsAddress(client)
    ensures ClientKey("::ffff:" + Dotted(a, b, c, d), Forwarded(header, [client]), 1) == client
    ensures ClientKey(Dotted(a, b, c, d), Forwarded(header, [client]), 1) == client
  {
    assert LowerAscii("::ffff:") == "::ffff:";
    UnmappedExactly("::ffff:", Dotted(a, b, c, d));
    DottedStays(a, b, c, d);
    PrivateExactly(a, b, c, d);
    KeyCannotBeForged(Dotted(a, b, c, d), header, [client], 1);
    KeyCannotBeForged("::ffff:" + Dotted(a, b, c, d), header, [client], 1);
  }

  /** From the public network the key is the address of the connection, whatever the header says. */
  lemma FromPublicNetwork(a: nat, b: nat, c: nat, d: nat, header: string, hops: nat)
    requires a != 127 && a != 10 && !(a == 192 && b == 168) && !(a == 172 && 16 <= b <= 31)
    ensures ClientKey(Dotted(a, b, c, d), header, hops) == Dotted(a, b, c, d)
  {
    DottedStays(a, b, c, d);
    PrivateExactly(a, b, c, d);
  }

  // ---------- entries that are blank ----------

  lemma {:induction false} TrimBlank(s: string)
    requires Text.IsBlank(s)
    ensures Text.Trim(s) == ""
  {
    if s != "" {
      assert Text.IsSpace(s[0]);
      forall i | 0 <= i < |s[1..]| ensures Text.IsSpace(s[1..][i]) {
        assert Text.IsSpace(s[i + 1]);
      }
      TrimBlank(s[1..]);
      assert Text.TrimStart(s) == Text.TrimStart(s[1..]);
    }
  }

  /** Entries of blanks do not count, in front, in the middle or behind. */
  lemma BlankEntry(before: string, blank: string, behind: string)
    requires Text.IsBlank(blank)
    ensures Chain(before + "," + blank) == Chain(before)
    ensures Chain(blank + "," + behind) == Chain(behind)
    ensures Chain(before + "," + blank + "," + behind) == Chain(before) + Chain(behind)
  {
    forall i | 0 <= i < |blank| ensures blank[i] != ',' {
      assert Text.IsSpace(blank[i]);
    }
    Text.SplitWhole(blank, ",");
    TrimBlank(blank);
    hide Text.Split, Text.Trim, Text.IsBlank;
    assert NonEmpty([blank]) == [] by {
      assert [blank][1..] == [];
    }
    SplitConcat(before, blank);
    SplitConcat(blank, behind);
    SplitConcat(before + "," + blank, behind);
    NonEmptyConcat(Text.Split(before, ","), [blank]);
    NonEmptyConcat([blank], Text.Split(behind, ","));
    NonEmptyConcat(Text.Split(before + "," + blank, ","), Text.Split(behind, ","));
  }

  /** Without a peer address and an entry all clients share one key. */
  lemma NothingKnown(blank: string, hops: nat)
    requires Text.IsBlank(blank)
    ensures ClientKey("", blank, hops) == "direct"
  {
    forall i | 0 <= i < |blank| ensures blank[i] != ',' {
      assert Text.IsSpace(blank[i]);
    }
    Text.SplitWhole(blank, ",");
    TrimBlank(blank);
    hide Text.Split, Text.Trim, Text.IsBlank;
    assert NonEmpty([blank]) == [] by {
      assert [blank][1..] == [];
    }
  }
}
