/**
 The strings the auth bridge hands out and takes back (internal/authbridge/server.go): random
 hex codes, and the OAuth `state` parameter that carries the bridge's own state and the
 client's through the identity provider.
 */
module AuthState {
  newtype byte = x: int | 0 <= x < 256

  function HexDigit(d: nat): (c: char)
    requires d < 16
    ensures '0' <= c <= '9' || 'a' <= c <= 'f'
  {
    if d < 10 then '0' + d as char else 'a' + (d - 10) as char
  }

  /** hex.EncodeToString, as generateCode applies it to 16 random bytes. */
  function HexEncode(bytes: seq<byte>): (r: string)
    ensures |r| == 2 * |bytes|
    ensures forall i :: 0 <= i < |r| ==> '0' <= r[i] <= '9' || 'a' <= r[i] <= 'f'
  {
    if bytes == [] then ""
    else [HexDigit(bytes[0] as int / 16), HexDigit(bytes[0] as int % 16)] + HexEncode(bytes[1..])
  }

  /** Distinct random bytes give distinct codes. */
  lemma {:induction false} HexEncodeInjective(a: seq<byte>, b: seq<byte>)
    requires HexEncode(a) == HexEncode(b)
    ensures a == b
  {
    assert |a| == |b|;
    if a != [] {
      var ha, hb := HexEncode(a), HexEncode(b);
      assert ha[0] == HexDigit(a[0] as int / 16) && ha[1] == HexDigit(a[0] as int % 16);
      assert hb[0] == HexDigit(b[0] as int / 16) && hb[1] == HexDigit(b[0] as int % 16);
      assert ha[2..] == HexEncode(a[1..]) && hb[2..] == HexEncode(b[1..]);
      HexEncodeInjective(a[1..], b[1..]);
      assert a == [a[0]] + a[1..] && b == [b[0]] + b[1..];
    }
  }

  /** The position of the first colon, or the length of the string. */
  function FirstColon(s: string): (i: nat)
    ensures i <= |s| && (i < |s| ==> s[i] == ':') && ':' !in s[..i]
  {
    if s == "" || s[0] == ':' then 0 else 1 + FirstColon(s[1..])
  }

  lemma {:induction false} FirstColonIs(s: string, i: nat)
    requires i < |s| && s[i] == ':' && ':' !in s[..i]
    ensures FirstColon(s) == i
  {
    if i > 0 {
      assert s[0] == s[..i][0];
      assert s[1..][..i - 1] == s[..i][1..];
      FirstColonIs(s[1..], i - 1);
    }
  }

  /** What splitState returns: bridge state and client state. */
  function Split(combined: string): (string, string) {
    var i := FirstColon(combined);
    if i < |combined| then (combined[..i], combined[i + 1..]) else (combined, "")
  }

  method SplitState(combined: string) returns (bridge: string, client: string)
    ensures (bridge, client) == Split(combined)
  {
    for i := 0 to |combined|
      invariant ':' !in combined[..i]
    {
      if combined[i] == ':' {
        FirstColonIs(combined, i);
        return combined[..i], combined[i + 1..];
      }
    }
    assert combined[..|combined|] == combined;
    assert FirstColon(combined) == |combined|;
    return combined, "";
  }

  /** The state that authorize builds splits back into its two parts, whatever colons the client's state has. */
  lemma SplitRoundTrip(bridge: string, client: string)
    requires ':' !in bridge
    ensures Split(bridge + ":" + client) == (bridge, client)
  {
    var combined := bridge + ":" + client;
    assert combined[..|bridge|] == bridge && combined[|bridge| + 1..] == client;
    FirstColonIs(combined, |bridge|);
  }

  /** Without a colon the whole string is the bridge's state and the client's is empty. */
  lemma NoColonNoClientState(combined: string)
    requires ':' !in combined
    ensures Split(combined) == (combined, "")
  {
    assert FirstColon(combined) == |combined|;
  }

  lemma GeneratedCodeHasNoColon(random: seq<byte>)
    ensures ':' !in HexEncode(random)
  {
    var code := HexEncode(random);
    assert forall i :: 0 <= i < |code| ==> code[i] != ':';
  }

  /** So the callback recovers both parts for every random code and every client state. */
  lemma StateRoundTrip(random: seq<byte>, client: string)
    ensures Split(HexEncode(random) + ":" + client) == (HexEncode(random), client)
  {
    GeneratedCodeHasNoColon(random);
    SplitRoundTrip(HexEncode(random), client);
  }
}
