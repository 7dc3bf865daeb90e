/** The webhook signature header: `t=<unix seconds>,v1=<hex MAC of "<t>.<body>">`. */
module WebhookSignature {
  import opened Wrappers
  import opened Text
  import opened Decimal
  import opened Hex

  // HMAC-SHA256 as an uninterpreted function of secret and data.
  type Mac = (string, string) -> seq<byte>

  function SignedText(timestamp: int, body: string): string {
    IntText(timestamp) + "." + body
  }

  function Sign(mac: Mac, secret: string, body: string, timestamp: int): string {
    "t=" + IntText(timestamp) + ",v1=" + Encode(mac(secret, SignedText(timestamp, body)))
  }

  // ---- Reading a header ---------------------------------------------------------------------

  // slice(0, i): a negative end counts from the back.
  function SliceTo(s: string, i: int): string
    requires -1 <= i <= |s|
  {
    if i >= 0 then s[..i] else if s == "" then "" else s[..|s| - 1]
  }

  // A part without "=" still makes an entry: indexOf is -1, so the key loses its last character
  // and the value is the whole part.
  function EntryKey(part: string): string { Trim(SliceTo(part, IndexOf(part, '='))) }

  function EntryValue(part: string): string { Trim(part[IndexOf(part, '=') + 1..]) }

  // new Map(entries): a later entry replaces an earlier one with the same key.
  function Entries(parts: seq<string>): map<string, string> {
    if parts == [] then map[]
    else
      var last := parts[|parts| - 1];
      Entries(parts[..|parts| - 1])[EntryKey(last) := EntryValue(last)]
  }

  function Header(text: string): map<string, string> { Entries(Split(text, ',')) }

  // Number(text) when that is an integer. The empty text is 0; decimal text is read here; the other numeric
  // literals of the host language (hexadecimal, exponents, fractions) are left to `literal`.
  function ToInteger(text: string, literal: string -> Option<int>): Option<int> {
    if text == "" then Some(0)
    else
      var decimal := IntValue(text);
      if decimal.Some? then decimal else literal(text)
  }

  function Timestamp(header: map<string, string>, literal: string -> Option<int>): Option<int> {
    if "t" in header then ToInteger(header["t"], literal) else None
  }

  function Abs(x: int): nat { if x < 0 then -x else x }

  predicate Verify(mac: Mac, literal: string -> Option<int>, secret: string, body: string, text: string,
                   tolerance: int, now: int)
  {
    var header := Header(text);
    var timestamp := Timestamp(header, literal);
    if timestamp.None? || "v1" !in header || header["v1"] == "" then false
    else if Abs(now - timestamp.value) > tolerance then false
    else
      var made := Decode(Encode(mac(secret, SignedText(timestamp.value, body))));
      var given := Decode(header["v1"]);
      |given| == |made| && given == made
  }

  // ---- Printing and parsing undo each other --------------------------------------------------

  lemma {:induction false} TrimmedInt(n: int)
    ensures Trim(IntText(n)) == IntText(n)
    ensures ',' !in IntText(n)
  {
    var s := IntText(n);
    assert s[0] in s && s[|s| - 1] in s;
    TrimKeepsTrimmed(s);
  }

  lemma {:induction false} TrimmedHex(bytes: seq<byte>)
    ensures Trim(Encode(bytes)) == Encode(bytes)
    ensures ',' !in Encode(bytes)
  {
    EncodeIsHex(bytes);
    var s := Encode(bytes);
    if s != "" {
      assert s[0] in s && s[|s| - 1] in s;
    }
    TrimKeepsTrimmed(s);
  }

  lemma {:induction false} EntryOf(key: string, value: string)
    requires '=' !in key && Trimmed(key) && Trim(value) == value
    ensures EntryKey(key + "=" + value) == key && EntryValue(key + "=" + value) == value
  {
    var part := key + "=" + value;
    IndexOfField(key, '=', value);
    assert part[..|key|] == key && part[|key| + 1..] == value;
    TrimKeepsTrimmed(key);
  }

  lemma {:induction false} HeaderOfTwo(k1: string, v1: string, k2: string, v2: string)
    requires ',' !in k1 + v1 + k2 + v2 && '=' !in k1 + k2
    requires Trimmed(k1) && Trimmed(k2) && Trim(v1) == v1 && Trim(v2) == v2
    ensures Header(k1 + "=" + v1 + "," + k2 + "=" + v2) == map[k1 := v1][k2 := v2]
  {
    hide Split, EntryKey, EntryValue, Trim;
    var first, second := k1 + "=" + v1, k2 + "=" + v2;
    assert k1 + "=" + v1 + "," + k2 + "=" + v2 == first + [','] + second;
    SplitField(first, ',', second);
    SplitAtom(second, ',');
    EntryOf(k1, v1);
    EntryOf(k2, v2);
    assert [first, second][..1] == [first] && [first][..0] == [];
    assert Entries([first]) == map[k1 := v1];
  }

  lemma {:induction false} HeaderOfSigned(mac: Mac, secret: string, body: string, t: int)
    ensures Header(Sign(mac, secret, body, t))
              == map["t" := IntText(t)]["v1" := Encode(mac(secret, SignedText(t, body)))]
  {
    hide Header, Encode, IntText, Trim;
    var bytes := mac(secret, SignedText(t, body));
    TrimmedHex(bytes);
    TrimmedInt(t);
    HeaderOfTwo("t", IntText(t), "v1", Encode(bytes));
    assert Sign(mac, secret, body, t) == "t" + "=" + IntText(t) + "," + "v1" + "=" + Encode(bytes);
  }

  lemma {:induction false} SignedHeaderReads(mac: Mac, literal: string -> Option<int>, secret: string, body: string,
                                             t: int)
    ensures var header := Header(Sign(mac, secret, body, t));
            && Timestamp(header, literal) == Some(t)
            && "v1" in header && header["v1"] == Encode(mac(secret, SignedText(t, body)))
            && Decode(header["v1"]) == mac(secret, SignedText(t, body))
  {
    HeaderOfSigned(mac, secret, body, t);
    IntRoundTrip(t);
    RoundTrip(mac(secret, SignedText(t, body)));
  }

  // The sender's header passes the receiver's check exactly while its timestamp is within tolerance.
  lemma {:induction false} SignedVerifies(mac: Mac, literal: string -> Option<int>, secret: string,
                                          body: string, t: int, tolerance: int, now: int)
    requires mac(secret, SignedText(t, body)) != []
    ensures Verify(mac, literal, secret, body, Sign(mac, secret, body, t), tolerance, now) <==>
              -tolerance <= now - t <= tolerance
  {
    SignedHeaderReads(mac, literal, secret, body, t);
    RoundTrip(mac(secret, SignedText(t, body)));
  }

  // Whatever header is accepted carries a timestamp within tolerance and, as v1, the MAC of that timestamp
  // and this body.
  lemma {:induction false} AcceptedIsAuthentic(mac: Mac, literal: string -> Option<int>, secret: string,
                                               body: string, text: string, tolerance: int, now: int)
    ensures Verify(mac, literal, secret, body, text, tolerance, now) ==>
              var header := Header(text);
              var t := Timestamp(header, literal);
              && t.Some? && now - tolerance <= t.value <= now + tolerance
              && "v1" in header && Decode(header["v1"]) == mac(secret, SignedText(t.value, body))
  {
    var t := Timestamp(Header(text), literal);
    if t.Some? {
      RoundTrip(mac(secret, SignedText(t.value, body)));
    }
  }

  // "<t>.<body>" determines t and body.
  lemma {:induction false} SignedTextInjective(s: int, a: string, t: int, b: string)
    requires SignedText(s, a) == SignedText(t, b)
    ensures s == t && a == b
  {
    IndexOfField(IntText(s), '.', a);
    IndexOfField(IntText(t), '.', b);
    var text := SignedText(s, a);
    assert text[..|IntText(s)|] == IntText(s) && text[|IntText(s)| + 1..] == a;
    assert text[..|IntText(t)|] == IntText(t) && text[|IntText(t)| + 1..] == b;
    IntTextInjective(s, t);
  }

  ghost predicate Ideal(mac: Mac) {
    && (forall secret, data :: mac(secret, data) != [])
    && (forall s1, d1, s2, d2 :: mac(s1, d1) == mac(s2, d2) ==> s1 == s2 && d1 == d2)
  }

  // Under an ideal MAC a sent header is good for its own secret and body only, within tolerance.
  lemma {:induction false} SignatureBindsBody(mac: Mac, literal: string -> Option<int>, secret: string,
                                              body: string, t: int, other: string, received: string,
                                              tolerance: int, now: int)
    requires Ideal(mac)
    ensures Verify(mac, literal, other, received, Sign(mac, secret, body, t), tolerance, now) <==>
              other == secret && received == body && -tolerance <= now - t <= tolerance
  {
    SignedHeaderReads(mac, literal, secret, body, t);
    RoundTrip(mac(other, SignedText(t, received)));
    assert mac(secret, SignedText(t, body)) != [];
    if other == secret && SignedText(t, received) == SignedText(t, body) {
      SignedTextInjective(t, received, t, body);
    }
  }
}
