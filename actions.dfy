/**
 * The request-building parts of the front end's server actions: the loop
 * that drops null and empty-string fields from a submitted form, the merge
 * that puts the manager's club into a new event, and the query string that
 * `getEvents` builds from its parameters.
 *
 * A JavaScript object is a list of (key, value) entries in insertion order
 * with distinct keys. The `fetch` calls, the cookie reads behind
 * `getBearerToken`/`getDecodedToken` and the response handling are not
 * modelled: a token is an optional string, and each operation returns the
 * request it would send.
 */
module Actions {
  import opened Wrappers
  import opened Text

  /** The JavaScript values a form or a query parameter can carry. */
  datatype Value = Null | Undefined | Str(s: string) | Num(n: int) | Bool(b: bool) | Arr(items: seq<Value>)

  type Entry = (string, Value)
  type Record = seq<Entry>

  function Keys(r: Record): seq<string>
  {
    seq(|r|, i requires 0 <= i < |r| => r[i].0)
  }

  predicate DistinctKeys(r: Record)
  {
    forall i, j :: 0 <= i < j < |r| ==> r[i].0 != r[j].0
  }

  /** `r[key]`, `None` standing for a missing key. */
  function Lookup(r: Record, key: string): (v: Option<Value>)
    ensures v.Some? <==> key in Keys(r)
    decreases |r|
  {
    if |r| == 0 then None
    else
      assert Keys(r) == Keys(r[..|r| - 1]) + [r[|r| - 1].0];
      if r[|r| - 1].0 == key then Some(r[|r| - 1].1)
      else Lookup(r[..|r| - 1], key)
  }

  /** JavaScript truthiness. */
  predicate Truthy(v: Value)
  {
    match v
    case Null => false
    case Undefined => false
    case Str(s) => s != ""
    case Num(n) => n != 0
    case Bool(b) => b
    case Arr(_) => true
  }

  /** `obj[key] = value`, and equally `{...obj, [key]: value}`. */
  function Put(r: Record, key: string, value: Value): Record
  {
    if key in Keys(r) then Replace(r, key, value) else r + [(key, value)]
  }

  /** The entries of `r` with every entry under `key` given `value`. */
  function Replace(r: Record, key: string, value: Value): Record
    decreases |r|
  {
    if |r| == 0 then []
    else
      var last := r[|r| - 1];
      Replace(r[..|r| - 1], key, value) + [if last.0 == key then (key, value) else last]
  }

  lemma {:induction false} ReplaceSpec(r: Record, key: string, value: Value)
    ensures Keys(Replace(r, key, value)) == Keys(r)
    ensures key in Keys(r) ==> Lookup(Replace(r, key, value), key) == Some(value)
    ensures forall k :: k != key ==> Lookup(Replace(r, key, value), k) == Lookup(r, k)
    decreases |r|
  {
    if |r| > 0 {
      var init := r[..|r| - 1];
      var last := r[|r| - 1];
      var e := if last.0 == key then (key, value) else last;
      ReplaceSpec(init, key, value);
      var p := Replace(init, key, value);
      assert r == init + [last];
      assert Keys(r) == Keys(init) + [last.0];
      assert Keys(p + [e]) == Keys(p) + [e.0];
      LookupLast(p, e.0, e.1);
      LookupLast(init, last.0, last.1);
    }
  }

  /** Setting a key gives it the new value and leaves every other key as it
      was: an existing key keeps its place, a new key goes last. */
  lemma PutSpec(r: Record, key: string, value: Value)
    ensures key in Keys(r) ==> Keys(Put(r, key, value)) == Keys(r)
    ensures key !in Keys(r) ==> Put(r, key, value) == r + [(key, value)]
    ensures Lookup(Put(r, key, value), key) == Some(value)
    ensures forall k :: k != key ==> Lookup(Put(r, key, value), k) == Lookup(r, k)
    ensures DistinctKeys(r) ==> DistinctKeys(Put(r, key, value))
  {
    if key in Keys(r) {
      ReplaceSpec(r, key, value);
      var out := Replace(r, key, value);
      assert forall i :: 0 <= i < |out| ==> out[i].0 == Keys(out)[i] == Keys(r)[i] == r[i].0;
    } else {
      LookupLast(r, key, value);
      if DistinctKeys(r) {
        DistinctAppend(r, (key, value));
      }
    }
  }

  lemma LookupLast(init: Record, key: string, value: Value)
    ensures Lookup(init + [(key, value)], key) == Some(value)
    ensures forall k :: k != key ==> Lookup(init + [(key, value)], k) == Lookup(init, k)
  {
    var out := init + [(key, value)];
    assert out[..|out| - 1] == init;
  }

  /** Of a record with distinct keys, the last key is not among the others. */
  lemma DistinctPrefix(r: Record)
    requires |r| > 0 && DistinctKeys(r)
    ensures DistinctKeys(r[..|r| - 1]) && r[|r| - 1].0 !in Keys(r[..|r| - 1])
  {
    var init := r[..|r| - 1];
    forall i | 0 <= i < |init| ensures Keys(init)[i] != r[|r| - 1].0 {
      assert init[i] == r[i];
    }
  }

  lemma DistinctAppend(r: Record, e: Entry)
    requires DistinctKeys(r) && e.0 !in Keys(r)
    ensures DistinctKeys(r + [e])
  {
    var out := r + [e];
    forall i, j | 0 <= i < j < |out| ensures out[i].0 != out[j].0 {
      if j == |r| {
        assert out[i].0 == Keys(r)[i];
      }
    }
  }

  // ---------------------------------------------------------------------
  // Dropping null and empty fields

  /** The test of the cleaning loop: `value !== null && value !== ""`.
      `undefined` passes it. */
  predicate Kept(v: Value)
  {
    v != Null && v != Str("")
  }

  /** The record the cleaning loop builds: the kept entries, in order. */
  function Cleaned(r: Record): (c: Record)
    decreases |r|
  {
    if |r| == 0 then []
    else
      var rest := Cleaned(r[..|r| - 1]);
      if Kept(r[|r| - 1].1) then rest + [r[|r| - 1]] else rest
  }

  /** Cleaning keeps exactly the keys whose value is neither null nor "",
      with their values unchanged, in their original order and without
      duplicates. */
  lemma {:induction false} CleanedLookup(r: Record)
    requires DistinctKeys(r)
    ensures DistinctKeys(Cleaned(r))
    ensures forall k :: k in Keys(Cleaned(r)) ==> k in Keys(r)
    ensures forall k :: (Lookup(Cleaned(r), k) ==
      if Lookup(r, k).Some? && Kept(Lookup(r, k).value) then Lookup(r, k) else None)
    decreases |r|
  {
    if |r| > 0 {
      var init := r[..|r| - 1];
      var last := r[|r| - 1];
      assert r == init + [last];
      DistinctPrefix(r);
      CleanedLookup(init);
      var rest := Cleaned(init);
      assert Keys(r) == Keys(init) + [last.0];
      if Kept(last.1) {
        assert Keys(rest + [last]) == Keys(rest) + [last.0];
        DistinctAppend(rest, last);
        LookupLast(rest, last.0, last.1);
        LookupLast(init, last.0, last.1);
      } else {
        LookupLast(init, last.0, last.1);
      }
    }
  }

  /** Cleaning a cleaned record changes nothing. */
  lemma {:induction false} CleanedIdempotent(r: Record)
    ensures Cleaned(Cleaned(r)) == Cleaned(r)
    decreases |r|
  {
    if |r| > 0 {
      var init := r[..|r| - 1];
      CleanedIdempotent(init);
      var rest := Cleaned(init);
      if Kept(r[|r| - 1].1) {
        var c := rest + [r[|r| - 1]];
        assert c[..|c| - 1] == rest;
      }
    }
  }

  /** The loop `for (const key in submitData)` of `createEvent` and `updateEvent`. */
  method CleanData(submitData: Record) returns (cleanedData: Record)
    requires DistinctKeys(submitData)
    ensures cleanedData == Cleaned(submitData)
  {
    cleanedData := [];
    for i := 0 to |submitData|
      invariant cleanedData == Cleaned(submitData[..i])
    {
      var (key, value) := submitData[i];
      assert submitData[..i + 1][..i] == submitData[..i];
      if value != Null && value != Str("") {
        DistinctPrefix(submitData[..i + 1]);
        CleanedLookup(submitData[..i]);
        PutSpec(cleanedData, key, value);
        cleanedData := Put(cleanedData, key, value);
      }
    }
    assert submitData[..|submitData|] == submitData;
  }

  // ---------------------------------------------------------------------
  // createEvent and updateEvent

  const AUTH_REQUIRED: string := "Authentication required."

  /** The part of the decoded session token the actions read. */
  datatype DecodedToken = DecodedToken(managedClub: Value)

  /** `!token || !decodedToken` fails exactly for a missing or empty token or a missing decoded token. */
  predicate Authenticated(token: Option<string>, decoded: Option<DecodedToken>)
  {
    token.Some? && token.value != "" && decoded.Some?
  }

  /** `{...submitData, ...(managed_club && { club_id: managed_club })}`: spreading
      a falsy value adds nothing. */
  function EventData(submitData: Record, decoded: DecodedToken): (r: Record)
    ensures Truthy(decoded.managedClub) ==> Lookup(r, "club_id") == Some(decoded.managedClub)
    ensures Truthy(decoded.managedClub) ==> forall k :: k != "club_id" ==> Lookup(r, k) == Lookup(submitData, k)
    ensures !Truthy(decoded.managedClub) ==> r == submitData
    ensures DistinctKeys(submitData) ==> DistinctKeys(r)
  {
    PutSpec(submitData, "club_id", decoded.managedClub);
    if Truthy(decoded.managedClub) then Put(submitData, "club_id", decoded.managedClub) else submitData
  }

  /** The body `createEvent` posts, or the error it throws before posting. */
  function CreateEventBody(submitData: Record, token: Option<string>, decoded: Option<DecodedToken>): Result<Record, string>
    requires DistinctKeys(submitData)
  {
    if !Authenticated(token, decoded) then Err(AUTH_REQUIRED)
    else Ok(EventData(Cleaned(submitData), decoded.value))
  }

  method CreateEvent(submitData: Record, token: Option<string>, decoded: Option<DecodedToken>)
    returns (r: Result<Record, string>)
    requires DistinctKeys(submitData)
    ensures r == CreateEventBody(submitData, token, decoded)
  {
    if token.None? || token.value == "" || decoded.None? {
      return Err(AUTH_REQUIRED);
    }
    var cleanedData := CleanData(submitData);
    var eventData := EventData(cleanedData, decoded.value);
    return Ok(eventData);
  }

  /** What `createEvent` sends: without a token it throws "Authentication
      required."; with one, a truthy `managed_club` overrides `club_id` and
      every other field is the cleaned form's; otherwise the body is the
      cleaned form itself. */
  lemma CreateEventSends(submitData: Record, token: Option<string>, decoded: Option<DecodedToken>)
    requires DistinctKeys(submitData)
    ensures CreateEventBody(submitData, token, decoded).Err? <==> !Authenticated(token, decoded)
    ensures CreateEventBody(submitData, token, decoded).Err? ==>
      CreateEventBody(submitData, token, decoded).error == AUTH_REQUIRED
    ensures Authenticated(token, decoded) && Truthy(decoded.value.managedClub) ==>
      (var body := CreateEventBody(submitData, token, decoded).value;
       && Lookup(body, "club_id") == Some(decoded.value.managedClub)
       && forall k :: k != "club_id" ==> (Lookup(body, k) ==
            if Lookup(submitData, k).Some? && Kept(Lookup(submitData, k).value) then Lookup(submitData, k) else None))
    ensures Authenticated(token, decoded) && !Truthy(decoded.value.managedClub) ==>
      CreateEventBody(submitData, token, decoded) == Ok(Cleaned(submitData))
  {
    CleanedLookup(submitData);
  }

  /** `updateEvent` either returns `[]` at once (no token) or sends a body. */
  datatype UpdateRequest = NoRequest | Send(eventId: int, body: Record)

  method UpdateEvent(submitData: Record, eventId: int, token: Option<string>) returns (r: UpdateRequest)
    requires DistinctKeys(submitData)
    ensures token.None? || token.value == "" ==> r == NoRequest
    ensures token.Some? && token.value != "" ==> r == Send(eventId, Cleaned(submitData))
  {
    if token.None? || token.value == "" {
      return NoRequest;
    }
    var cleanedData := CleanData(submitData);
    return Send(eventId, cleanedData);
  }

  // ---------------------------------------------------------------------
  // The query string of getEvents

  /** `String(v)`. Inside an array, null and undefined elements print as "". */
  function JsString(v: Value): string
    decreases v
  {
    match v
    case Null => "null"
    case Undefined => "undefined"
    case Str(s) => s
    case Num(n) => IntToString(n)
    case Bool(b) => if b then "true" else "false"
    case Arr(items) =>
      Join(seq(|items|, i requires 0 <= i < |items| =>
        if items[i].Null? || items[i].Undefined? then "" else JsString(items[i])), ",")
  }

  function Join(parts: seq<string>, sep: string): string
    decreases |parts|
  {
    if |parts| == 0 then ""
    else if |parts| == 1 then parts[0]
    else Join(parts[..|parts| - 1], sep) + sep + parts[|parts| - 1]
  }

  /** The pairs one parameter appends: one per element, in order, for an
      array; one for any other value. */
  function ParamPairs(key: string, value: Value): seq<(string, string)>
  {
    match value
    case Arr(items) => seq(|items|, i requires 0 <= i < |items| => (key, JsString(items[i])))
    case _ => [(key, JsString(value))]
  }

  /** The contents of `searchParams` after the loop over `params`. */
  function Pairs(params: Record): seq<(string, string)>
    decreases |params|
  {
    if |params| == 0 then []
    else Pairs(params[..|params| - 1]) + ParamPairs(params[|params| - 1].0, params[|params| - 1].1)
  }

  /** `searchParams.toString()`: "name=value" pairs joined by "&". */
  function Serialize(pairs: seq<(string, string)>): string
  {
    Join(seq(|pairs|, i requires 0 <= i < |pairs| => FormEncode(pairs[i].0) + "=" + FormEncode(pairs[i].1)), "&")
  }

  /** The query `getEvents` appends to "/events/". */
  function Query(params: Option<Record>): string
  {
    if params.Some? && |params.value| > 0 then "?" + Serialize(Pairs(params.value)) else ""
  }

  /** The loop of `getEvents` that fills `searchParams`, and the query it yields. */
  method BuildQuery(params: Option<Record>) returns (query: string)
    ensures query == Query(params)
  {
    if params.Some? && |params.value| > 0 {
      var entries := params.value;
      var searchParams: seq<(string, string)> := [];
      for i := 0 to |entries|
        invariant searchParams == Pairs(entries[..i])
      {
        var (key, value) := entries[i];
        PairsStep(entries, i);
        if value.Arr? {
          var items := value.items;
          for j := 0 to |items|
            invariant searchParams == Pairs(entries[..i]) + ParamPairs(key, Arr(items[..j]))
          {
            ArrayPairsStep(key, items, j);
            searchParams := searchParams + [(key, JsString(items[j]))];
          }
          assert items[..|items|] == items;
        } else {
          searchParams := searchParams + [(key, JsString(value))];
        }
      }
      assert entries[..|entries|] == entries;
      query := "?" + Serialize(searchParams);
    } else {
      query := "";
    }
  }

  lemma PairsStep(entries: Record, i: nat)
    requires i < |entries|
    ensures Pairs(entries[..i + 1]) == Pairs(entries[..i]) + ParamPairs(entries[i].0, entries[i].1)
  {
    assert entries[..i + 1][..i] == entries[..i];
  }

  lemma ArrayPairsStep(key: string, items: seq<Value>, j: nat)
    requires j < |items|
    ensures ParamPairs(key, Arr(items[..j + 1])) == ParamPairs(key, Arr(items[..j])) + [(key, JsString(items[j]))]
  {
  }

  /** `getEvents`: the query is built first, then a missing token throws;
      otherwise the request goes to "/events/" followed by the query. */
  method GetEvents(params: Option<Record>, token: Option<string>) returns (r: Result<string, string>)
    ensures token.None? || token.value == "" ==> r == Err(AUTH_REQUIRED)
    ensures token.Some? && token.value != "" ==> r == Ok("/events/" + Query(params))
  {
    var query := BuildQuery(params);
    if token.None? || token.value == "" {
      return Err(AUTH_REQUIRED);
    }
    return Ok("/events/" + query);
  }

  /** The query is empty exactly when there are no parameters; otherwise it
      starts with "?" (and is only "?" when every parameter is an empty array). */
  lemma QueryShape(params: Option<Record>)
    ensures Query(params) == "" <==> params.None? || |params.value| == 0
    ensures Query(params) != "" ==> Query(params)[0] == '?'
    ensures Query(params) == "?" <==> params.Some? && |params.value| > 0 && Pairs(params.value) == []
  {
    if params.Some? && |params.value| > 0 {
      var pairs := Pairs(params.value);
      if pairs != [] {
        SerializeNonEmpty(pairs);
      }
    }
  }

  lemma SerializeNonEmpty(pairs: seq<(string, string)>)
    requires pairs != []
    ensures Serialize(pairs) != ""
  {
    var parts := seq(|pairs|, i requires 0 <= i < |pairs| => FormEncode(pairs[i].0) + "=" + FormEncode(pairs[i].1));
    JoinNonEmpty(parts, "&");
  }

  lemma {:induction false} JoinNonEmpty(parts: seq<string>, sep: string)
    requires |parts| > 0 && forall i :: 0 <= i < |parts| ==> |parts[i]| > 0
    ensures |Join(parts, sep)| > 0
    decreases |parts|
  {
    if |parts| > 1 {
      JoinNonEmpty(parts[..|parts| - 1], sep);
    }
  }

  /** An array parameter contributes one pair per element, in element order,
      after the pairs of the parameters before it. */
  lemma ArrayParamExpands(params: Record, key: string, items: seq<Value>)
    ensures Pairs(params + [(key, Arr(items))]) ==
      Pairs(params) + seq(|items|, i requires 0 <= i < |items| => (key, JsString(items[i])))
  {
    var p := params + [(key, Arr(items))];
    assert p[..|p| - 1] == params;
  }

  // ---------------------------------------------------------------------
  // Form encoding

  /** The UTF-8 bytes of one character. */
  function Utf8(c: char): (bytes: seq<nat>)
    ensures 1 <= |bytes| <= 4 && forall i :: 0 <= i < |bytes| ==> bytes[i] < 256
    ensures c as int < 0x80 <==> bytes == [c as int]
  {
    var cp := c as int;
    if cp < 0x80 then [cp]
    else if cp < 0x800 then [0xC0 + cp / 0x40, 0x80 + cp % 0x40]
    else if cp < 0x10000 then [0xE0 + cp / 0x1000, 0x80 + (cp / 0x40) % 0x40, 0x80 + cp % 0x40]
    else [0xF0 + cp / 0x40000, 0x80 + (cp / 0x1000) % 0x40, 0x80 + (cp / 0x40) % 0x40, 0x80 + cp % 0x40]
  }

  /** Bytes the form encoding leaves as they are: `*`, `-`, `.`, `_`, digits and letters. */
  predicate Unreserved(b: nat)
  {
    b == 0x2A || b == 0x2D || b == 0x2E || b == 0x5F
    || (0x30 <= b <= 0x39) || (0x41 <= b <= 0x5A) || (0x61 <= b <= 0x7A)
  }

  function HexUpper(d: nat): (c: char)
    requires d < 16
    ensures '0' <= c <= '9' || 'A' <= c <= 'F'
  {
    if d < 10 then ('0' as int + d) as char else ('A' as int + d - 10) as char
  }

  /** One byte of the application/x-www-form-urlencoded serialisation. */
  function EncodeByte(b: nat): (s: string)
    requires b < 256
  {
    if Unreserved(b) then [b as char]
    else if b == 0x20 then "+"
    else ['%', HexUpper(b / 16), HexUpper(b % 16)]
  }

  function EncodeBytes(bytes: seq<nat>): string
    requires forall i :: 0 <= i < |bytes| ==> bytes[i] < 256
    decreases |bytes|
  {
    if |bytes| == 0 then "" else EncodeBytes(bytes[..|bytes| - 1]) + EncodeByte(bytes[|bytes| - 1])
  }

  /** The form encoding of a name or value, character by character. */
  function FormEncode(s: string): string
    decreases |s|
  {
    if |s| == 0 then "" else FormEncode(s[..|s| - 1]) + EncodeBytes(Utf8(s[|s| - 1]))
  }

  /** Characters an encoded string can contain. */
  predicate SafeChar(c: char)
  {
    Unreserved(c as int) || c == '+' || c == '%'
  }

  predicate AllSafe(s: string)
  {
    forall i :: 0 <= i < |s| ==> SafeChar(s[i])
  }

  lemma ConcatSafe(a: string, b: string)
    requires AllSafe(a) && AllSafe(b)
    ensures AllSafe(a + b)
  {
    forall i | 0 <= i < |a + b| ensures SafeChar((a + b)[i]) {
      if i >= |a| {
        assert (a + b)[i] == b[i - |a|];
      }
    }
  }

  lemma EncodeByteSafe(b: nat)
    requires b < 256
    ensures AllSafe(EncodeByte(b))
  {
    if !Unreserved(b) && b != 0x20 {
      var s := EncodeByte(b);
      assert SafeChar(s[0]);
      assert SafeChar(s[1]);
      assert SafeChar(s[2]);
    }
  }

  lemma {:induction false} EncodeBytesSafe(bytes: seq<nat>)
    requires forall i :: 0 <= i < |bytes| ==> bytes[i] < 256
    ensures AllSafe(EncodeBytes(bytes))
    decreases |bytes|
  {
    if |bytes| > 0 {
      EncodeBytesSafe(bytes[..|bytes| - 1]);
      EncodeByteSafe(bytes[|bytes| - 1]);
      ConcatSafe(EncodeBytes(bytes[..|bytes| - 1]), EncodeByte(bytes[|bytes| - 1]));
    }
  }

  /** An encoded name or value never contains "&" or "=", so the serialised
      pairs can be split apart again. */
  lemma {:induction false} FormEncodeSafe(s: string)
    ensures AllSafe(FormEncode(s))
    ensures '&' !in FormEncode(s) && '=' !in FormEncode(s)
    decreases |s|
  {
    if |s| > 0 {
      FormEncodeSafe(s[..|s| - 1]);
      EncodeBytesSafe(Utf8(s[|s| - 1]));
      ConcatSafe(FormEncode(s[..|s| - 1]), EncodeBytes(Utf8(s[|s| - 1])));
    }
    SafeHasNoSeparator(FormEncode(s));
  }

  lemma SafeHasNoSeparator(e: string)
    requires AllSafe(e)
    ensures '&' !in e && '=' !in e
  {
    forall i | 0 <= i < |e| ensures e[i] != '&' && e[i] != '=' {
      assert SafeChar(e[i]);
    }
  }

  /** Names and values made of unreserved characters are sent as they are. */
  lemma {:induction false} FormEncodeUnreserved(s: string)
    requires forall i :: 0 <= i < |s| ==> Unreserved(s[i] as int)
    ensures FormEncode(s) == s
    decreases |s|
  {
    if |s| > 0 {
      var c := s[|s| - 1];
      FormEncodeUnreserved(s[..|s| - 1]);
      UnreservedCharKept(c);
      assert s == s[..|s| - 1] + [c];
    }
  }

  lemma UnreservedCharKept(c: char)
    requires Unreserved(c as int)
    ensures EncodeBytes(Utf8(c)) == [c]
  {
    assert Utf8(c) == [c as int];
    assert [c as int][..0] == [];
    assert EncodeBytes([c as int]) == EncodeByte(c as int);
  }
}
