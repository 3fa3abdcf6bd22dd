/**
 * The mock creator API of server/index.js: a read-only table of creators,
 * the list and lookup handlers over it, and the unlock stub that checks
 * that its three parameters are present and then always hands out a URL
 * carrying a fresh random token. The random bytes are a parameter.
 */
module CreatorApi {

  datatype Unlockable = Unlockable(id: string, title: string, description: string, price: int)

  datatype Activity = Activity(kind: string, note: string)

  datatype Creator = Creator(slug: string, name: string, bio: string,
                             unlockables: seq<Unlockable>, activity: seq<Activity>)

  /** An element of the list response. */
  datatype Summary = Summary(slug: string, name: string, bio: string)

  /** A handler's answer: a JSON value with status 200, or a status and a message. */
  datatype Response<T> = Ok(value: T) | Fail(status: int, message: string)

  /** The in-memory sample data. */
  const Creators: seq<Creator> := [
    Creator("luna-arts", "Luna Arts", "Digital painter and animator.",
      [Unlockable("u1", "Behind the Scenes Pack", "High-res files and process videos", 5)],
      [Activity("Tip", "Received 3 tips today")]),
    Creator("beatforge", "BeatForge", "Electronic music producer.",
      [Unlockable("u2", "Sample Pack Vol.1", "Exclusive samples for producers", 3)],
      [Activity("Tip", "Live show tips incoming")])
  ]

  /** GET /api/creators: each creator projected to slug, name and bio, in table order. */
  function ListCreators(cs: seq<Creator>): (r: seq<Summary>)
    ensures |r| == |cs|
    ensures forall i :: 0 <= i < |cs| ==> r[i] == Summary(cs[i].slug, cs[i].name, cs[i].bio)
    decreases |cs|
  {
    if cs == [] then []
    else
      var last := cs[|cs| - 1];
      ListCreators(cs[..|cs| - 1]) + [Summary(last.slug, last.name, last.bio)]
  }

  /** The error answer for a slug no creator has. */
  const NotFound: Response<Creator> := Fail(404, "Not found")

  /** GET /api/creator/:slug: the first record whose slug is exactly the parameter. */
  function GetCreator(cs: seq<Creator>, slug: string): (r: Response<Creator>)
    ensures r.Ok? ==> exists i :: 0 <= i < |cs| && cs[i] == r.value && cs[i].slug == slug
                                  && forall j :: 0 <= j < i ==> cs[j].slug != slug
    ensures r.Fail? <==> forall i :: 0 <= i < |cs| ==> cs[i].slug != slug
    ensures r.Fail? ==> r == NotFound
    decreases |cs|
  {
    if cs == [] then NotFound
    else if cs[0].slug == slug then Ok(cs[0])
    else
      var r := GetCreator(cs[1..], slug);
      assert r.Ok? ==> exists i :: 1 <= i < |cs| && cs[i] == r.value && cs[i].slug == slug
                                   && forall j :: 0 <= j < i ==> cs[j].slug != slug by {
        if r.Ok? {
          var k :| 0 <= k < |cs[1..]| && cs[1..][k] == r.value && cs[1..][k].slug == slug
                   && forall j :: 0 <= j < k ==> cs[1..][j].slug != slug;
          assert cs[k + 1] == r.value;
          assert forall j :: 0 <= j < k + 1 ==> cs[j].slug != slug by {
            forall j | 0 <= j < k + 1 ensures cs[j].slug != slug {
              if j > 0 {
                assert cs[j] == cs[1..][j - 1];
              }
            }
          }
        }
      }
      r
  }

  predicate DistinctSlugs(cs: seq<Creator>) {
    forall i, j :: 0 <= i < j < |cs| ==> cs[i].slug != cs[j].slug
  }

  /** With distinct slugs, every slug the list shows leads to that creator's record. */
  lemma ListedSlugsFound(cs: seq<Creator>)
    requires DistinctSlugs(cs)
    ensures forall i :: 0 <= i < |cs| ==> GetCreator(cs, ListCreators(cs)[i].slug) == Ok(cs[i])
  {
    forall i | 0 <= i < |cs|
      ensures GetCreator(cs, ListCreators(cs)[i].slug) == Ok(cs[i])
    {
      var r := GetCreator(cs, cs[i].slug);
      var k :| 0 <= k < |cs| && cs[k] == r.value && cs[k].slug == cs[i].slug
               && forall j :: 0 <= j < k ==> cs[j].slug != cs[i].slug;
      assert k == i;
    }
  }

  /** The sample slugs are distinct, so both sample creators can be looked up. */
  lemma SampleSlugsDistinct()
    ensures DistinctSlugs(Creators)
    ensures GetCreator(Creators, "luna-arts") == Ok(Creators[0])
    ensures GetCreator(Creators, "beatforge") == Ok(Creators[1])
  {
    assert Creators[0].slug == "luna-arts" && Creators[1].slug == "beatforge";
    assert Creators[0].slug != Creators[1].slug by {
      assert Creators[0].slug[0] != Creators[1].slug[0];
    }
    ListedSlugsFound(Creators);
    assert ListCreators(Creators)[0].slug == "luna-arts";
    assert ListCreators(Creators)[1].slug == "beatforge";
  }

  /** The slug is matched exactly: a different capitalisation is not found. */
  lemma LookupIsCaseSensitive()
    ensures GetCreator(Creators, "Luna-Arts") == NotFound
  {
    assert Creators[0].slug[0] != "Luna-Arts"[0];
    assert Creators[1].slug[0] != "Luna-Arts"[0];
  }

  /** A JSON value as the request body, or Undefined when there is none (numbers without NaN). */
  datatype JsValue =
    | Undefined
    | Null
    | Bool(b: bool)
    | Num(n: int)
    | Str(s: string)
    | Arr(items: seq<JsValue>)
    | Obj(fields: map<string, JsValue>)

  /** JavaScript truthiness. */
  predicate Truthy(v: JsValue) {
    match v
    case Undefined => false
    case Null => false
    case Bool(b) => b
    case Num(n) => n != 0
    case Str(s) => s != ""
    case Arr(_) => true
    case Obj(_) => true
  }

  /** A property read on `req.body || {}`: only an object body carries the three fields. */
  function Field(body: JsValue, key: string): JsValue {
    if body.Obj? && key in body.fields then body.fields[key] else Undefined
  }

  type Byte = x: int | 0 <= x < 256

  const HexDigits: string := "0123456789abcdef"

  /** Buffer.toString('hex'): two lower-case digits per byte, high nibble first. */
  function Hex(bytes: seq<Byte>): (h: string)
    ensures |h| == 2 * |bytes|
    decreases |bytes|
  {
    if bytes == [] then []
    else [HexDigits[bytes[0] / 16], HexDigits[bytes[0] % 16]] + Hex(bytes[1..])
  }

  /** The value of a lower-case hex digit. */
  function DigitValue(ch: char): (d: int)
    ensures 0 <= d < 16
  {
    if '0' <= ch <= '9' then ch as int - '0' as int
    else if 'a' <= ch <= 'f' then ch as int - 'a' as int + 10
    else 0
  }

  lemma DigitValueOfDigit(d: int)
    requires 0 <= d < 16
    ensures DigitValue(HexDigits[d]) == d
  {
  }

  /** Reading a hex string back into bytes. */
  function Unhex(h: string): seq<Byte>
    decreases |h|
  {
    if |h| < 2 then []
    else [16 * DigitValue(h[0]) + DigitValue(h[1])] + Unhex(h[2..])
  }

  lemma {:induction false} UnhexHex(bytes: seq<Byte>)
    ensures Unhex(Hex(bytes)) == bytes
    decreases |bytes|
  {
    if bytes != [] {
      var b := bytes[0];
      var h := Hex(bytes);
      UnhexHex(bytes[1..]);
      DigitValueOfDigit(b / 16);
      DigitValueOfDigit(b % 16);
      assert h[2..] == Hex(bytes[1..]);
      assert bytes == [b] + bytes[1..];
    }
  }

  /** Every character of the token is a lower-case hex digit. */
  lemma {:induction false} HexAlphabet(bytes: seq<Byte>)
    ensures forall i :: 0 <= i < |Hex(bytes)| ==> Hex(bytes)[i] in HexDigits
    decreases |bytes|
  {
    if bytes != [] {
      HexAlphabet(bytes[1..]);
      var h := Hex(bytes);
      forall i | 0 <= i < |h| ensures h[i] in HexDigits {
        if i >= 2 {
          assert h[i] == Hex(bytes[1..])[i - 2];
        }
      }
    }
  }

  const UnlockPath: string := "/assets/sample-unlocked-content.pdf?token="

  /**
   * POST /api/unlock/verify with request body `body`, the request's protocol
   * and Host header, and the 18 bytes crypto.randomBytes draws.
   */
  function Unlock(body: JsValue, protocol: string, host: string, random: seq<Byte>): (r: Response<string>)
    requires |random| == 18
    ensures r.Fail? <==>
      !Truthy(Field(body, "slug")) || !Truthy(Field(body, "assetId")) || !Truthy(Field(body, "txHash"))
    ensures r.Fail? ==> r == Fail(400, "Missing parameters")
  {
    if !Truthy(Field(body, "slug")) || !Truthy(Field(body, "assetId")) || !Truthy(Field(body, "txHash"))
    then Fail(400, "Missing parameters")
    else Ok(protocol + "://" + host + UnlockPath + Hex(random))
  }

  /** An empty string counts as missing, and a body that is not an object has no parameters. */
  lemma EmptyOrAbsentIsMissing(protocol: string, host: string, random: seq<Byte>, fields: map<string, JsValue>)
    requires |random| == 18
    ensures Unlock(Obj(fields["slug" := Str("")]), protocol, host, random).Fail?
    ensures Unlock(Null, protocol, host, random).Fail?
    ensures Unlock(Arr([Str("x")]), protocol, host, random).Fail?
  {
    assert Field(Obj(fields["slug" := Str("")]), "slug") == Str("");
  }

  /**
   * Once the three parameters are present the answer is a URL ending in the
   * token: 36 lower-case hex digits that decode to the random bytes. Which
   * creator or asset is named, and which transaction, makes no difference.
   */
  lemma UnlockGrants(body: JsValue, protocol: string, host: string, random: seq<Byte>)
    requires |random| == 18
    requires Truthy(Field(body, "slug")) && Truthy(Field(body, "assetId")) && Truthy(Field(body, "txHash"))
    ensures var r := Unlock(body, protocol, host, random);
      r.Ok? && |r.value| >= 36
      && r.value[..|r.value| - 36] == protocol + "://" + host + UnlockPath
      && Unhex(r.value[|r.value| - 36..]) == random
      && forall i :: |r.value| - 36 <= i < |r.value| ==> r.value[i] in HexDigits
  {
    var r := Unlock(body, protocol, host, random);
    var prefix := protocol + "://" + host + UnlockPath;
    assert r.value == prefix + Hex(random);
    assert r.value[..|r.value| - 36] == prefix;
    assert r.value[|r.value| - 36..] == Hex(random);
    UnhexHex(random);
    HexAlphabet(random);
    forall i | |r.value| - 36 <= i < |r.value| ensures r.value[i] in HexDigits {
      assert r.value[i] == Hex(random)[i - |prefix|];
    }
  }

  /** Two requests that both pass get the same URL only if the same bytes were drawn. */
  lemma DistinctTokensDistinctUrls(b1: JsValue, b2: JsValue, protocol: string, host: string, r1: seq<Byte>, r2: seq<Byte>)
    requires |r1| == 18 && |r2| == 18
    requires Unlock(b1, protocol, host, r1).Ok? && Unlock(b2, protocol, host, r2).Ok?
    requires Unlock(b1, protocol, host, r1) == Unlock(b2, protocol, host, r2)
    ensures r1 == r2
  {
    UnlockGrants(b1, protocol, host, r1);
    UnlockGrants(b2, protocol, host, r2);
  }
}
