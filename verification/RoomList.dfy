/**
  The rooms of one location, read out of a subscription
  (iosApp/PacketTunnel/RoomList.swift).  Characters are ASCII.
 */
module RoomList {
  import opened Wrappers
  import opened Text

  // ---------------------------------------------------------------------
  // Carriers

  /** A carrier's name trimmed and in lower case. */
  function Plain(name: string): (value: string) {
    Lower(Trim(name, WHITES))
  }

  /** The engine's name of a carrier that goes by several. */
  function Canonical(value: string): (r: string) {
    if value == "telemost" || value == "yandex" || value == "yandex_telemost" then "telemost"
    else if value == "wbstream" || value == "wb-stream" || value == "wildberries" then "wbstream"
    else if value == "jitsi" || value == "jitsi-meet" || value == "jitsi_meet" || value == "meet" then "jitsi"
    else if value == "salutejazz" || value == "jazz" || value == "sberjazz" || value == "sber_jazz" then "salutejazz"
    else if value == "vkcalls" || value == "vk" || value == "vkcall" || value == "vk_calls" ||
        value == "vk-calls" then "vkcalls"
    else if value == "mtslink" || value == "mts" || value == "mts-link" || value == "mts_link" then "mtslink"
    else value
  }

  function NormalizedCarrier(name: string): (carrier: string) {
    Canonical(Plain(name))
  }

  lemma LowerOnce(s: string)
    ensures Lower(Lower(s)) == Lower(s)
  {
  }

  lemma PlainOnce(name: string)
    ensures Plain(Plain(name)) == Plain(name)
  {
    var t := Trim(name, WHITES);
    LowerOnce(t);
    Trimmed(Lower(t), WHITES);
  }

  /** A word in lower case, as every canonical name is. */
  predicate IsWord(s: string) {
    s != "" && forall i :: 0 <= i < |s| ==> 'a' <= s[i] <= 'z'
  }

  lemma WordIsPlain(s: string)
    requires IsWord(s)
    ensures Plain(s) == s
  {
    Trimmed(s, WHITES);
    assert Lower(s) == s;
  }

  lemma CanonicalNames()
    ensures IsWord("telemost") && IsWord("wbstream") && IsWord("jitsi") && IsWord("salutejazz") &&
        IsWord("vkcalls") && IsWord("mtslink")
  {
  }

  /** Two texts that differ in a character differ. */
  lemma Differ(a: string, b: string, i: nat)
    requires i < |a| && i < |b| && a[i] != b[i]
    ensures a != b
  {
  }

  lemma CanonicalNamesStay()
    ensures Canonical("telemost") == "telemost" && Canonical("wbstream") == "wbstream" && Canonical("jitsi") == "jitsi"
    ensures Canonical("salutejazz") == "salutejazz" && Canonical("vkcalls") == "vkcalls" &&
        Canonical("mtslink") == "mtslink"
  {
    Differ("wbstream", "telemost", 0);
    Differ("salutejazz", "jitsi-meet", 0);
    Differ("salutejazz", "jitsi_meet", 0);
  }

  lemma CanonicalIs(value: string)
    ensures var c := Canonical(value); c == value || IsWord(c)
    ensures Canonical(Canonical(value)) == Canonical(value)
  {
    CanonicalNames();
    CanonicalNamesStay();
  }

  /** Which names are which carrier. */
  lemma AliasesAre(value: string)
    ensures Canonical(value) == "telemost" <==> value in {"telemost", "yandex", "yandex_telemost"}
    ensures Canonical(value) == "wbstream" <==> value in {"wbstream", "wb-stream", "wildberries"}
    ensures Canonical(value) == "jitsi" <==> value in {"jitsi", "jitsi-meet", "jitsi_meet", "meet"}
    ensures Canonical(value) == "salutejazz" <==> value in {"salutejazz", "jazz", "sberjazz", "sber_jazz"}
    ensures Canonical(value) == "vkcalls" <==> value in {"vkcalls", "vk", "vkcall", "vk_calls", "vk-calls"}
    ensures Canonical(value) == "mtslink" <==> value in {"mtslink", "mts", "mts-link", "mts_link"}
    ensures Canonical(value) !in {"telemost", "wbstream", "jitsi", "salutejazz", "vkcalls", "mtslink"} ==>
              Canonical(value) == value
  {
    CarriersDiffer();
  }

  lemma CarriersDiffer()
    ensures "telemost" != "wbstream" && "telemost" != "jitsi" && "telemost" != "salutejazz"
    ensures "telemost" != "vkcalls" && "telemost" != "mtslink" && "wbstream" != "jitsi"
    ensures "wbstream" != "salutejazz" && "wbstream" != "vkcalls" && "wbstream" != "mtslink"
    ensures "jitsi" != "salutejazz" && "jitsi" != "vkcalls" && "jitsi" != "mtslink"
    ensures "salutejazz" != "vkcalls" && "salutejazz" != "mtslink" && "vkcalls" != "mtslink"
  {
    Differ("telemost", "wbstream", 0);
    Differ("vkcalls", "mtslink", 0);
  }

  /** A normalized name is its own. */
  lemma NormalizedOnce(name: string)
    ensures NormalizedCarrier(NormalizedCarrier(name)) == NormalizedCarrier(name)
  {
    PlainOnce(name);
    var c := NormalizedCarrier(name);
    CanonicalIs(Plain(name));
    if c != Plain(name) {
      WordIsPlain(c);
    }
  }

  // ---------------------------------------------------------------------
  // Lines

  const URI_PREFIX := "olcrtc://"

  datatype Location = Location(carrier: string, room: string, key: string)

  predicate IsUri(line: string) {
    URI_PREFIX <= line
  }

  /** What follows the prefix of a line, in its parts. */
  datatype Parts = Parts(carrier: string, transport: string, room: string, key: string, rest: string)

  /** A text cut at the first of a character. */
  function CutAt(s: string, c: char): (r: Option<(string, string)>) {
    var i := FirstOf(s, {c});
    if i == |s| then None else Some((s[..i], s[i + 1..]))
  }

  lemma CutAtIs(s: string, c: char, a: string, b: string)
    ensures CutAt(s, c) == Some((a, b)) <==> c !in a && s == a + ([c] + b)
  {
    var i := FirstOf(s, {c});
    if i < |s| {
      assert s == s[..i] + ([c] + s[i + 1..]);
    }
    if c !in a && s == a + ([c] + b) {
      assert s[|a|] == c;
      assert forall k :: 0 <= k < |a| ==> s[k] == a[k];
      FirstOfIs(s, {c}, |a|);
      assert s[..|a|] == a && s[|a| + 1..] == b;
    }
  }

  function Cut(payload: string): (r: Option<Parts>) {
    match CutAt(payload, '?')
    case None => None
    case Some((carrier, s2)) =>
      match CutAt(s2, '@')
      case None => None
      case Some((transport, s3)) =>
        match CutAt(s3, '#')
        case None => None
        case Some((room, s4)) =>
          var end := FirstOf(s4, {'%', '$'});
          Some(Parts(carrier, transport, room, s4[..end], s4[end..]))
  }

  ghost predicate Apart(p: Parts) {
    && '?' !in p.carrier && '@' !in p.transport && '#' !in p.room
    && '%' !in p.key && '$' !in p.key
    && (p.rest == "" || p.rest[0] == '%' || p.rest[0] == '$')
  }

  function Joined(p: Parts): (payload: string) {
    p.carrier + ("?" + (p.transport + ("@" + (p.room + ("#" + (p.key + p.rest))))))
  }

  lemma KeyEnds(s: string, key: string, rest: string)
    requires s == key + rest
    ensures FirstOf(s, {'%', '$'}) == |key| <==>
            '%' !in key && '$' !in key && (rest == "" || rest[0] == '%' || rest[0] == '$')
  {
    assert forall k :: 0 <= k < |key| ==> s[k] == key[k];
    assert |s| > |key| ==> s[|key|] == rest[0];
    if '%' !in key && '$' !in key && (rest == "" || rest[0] == '%' || rest[0] == '$') {
      FirstOfIs(s, {'%', '$'}, |key|);
    }
  }

  /** What is joined is cut into the same parts. */
  lemma JoinedCut(p: Parts)
    requires Apart(p)
    ensures Cut(Joined(p)) == Some(p)
  {
    var s4 := p.key + p.rest;
    var s3 := p.room + ("#" + s4);
    var s2 := p.transport + ("@" + s3);
    CutAtIs(Joined(p), '?', p.carrier, s2);
    CutAtIs(s2, '@', p.transport, s3);
    CutAtIs(s3, '#', p.room, s4);
    KeyEnds(s4, p.key, p.rest);
    assert s4[..|p.key|] == p.key && s4[|p.key|..] == p.rest;
  }

  /** And what is cut is what its parts join to. */
  lemma CutJoined(payload: string)
    requires Cut(payload).Some?
    ensures Apart(Cut(payload).value) && Joined(Cut(payload).value) == payload
  {
    var s2 := CutAt(payload, '?').value;
    var s3 := CutAt(s2.1, '@').value;
    var s4 := CutAt(s3.1, '#').value;
    CutAtIs(payload, '?', s2.0, s2.1);
    CutAtIs(s2.1, '@', s3.0, s3.1);
    CutAtIs(s3.1, '#', s4.0, s4.1);
    KeyCut(s4.1);
  }

  lemma KeyCut(s: string)
    ensures var end := FirstOf(s, {'%', '$'});
            && s == s[..end] + s[end..]
            && '%' !in s[..end] && '$' !in s[..end] && (s[end..] == "" || s[end..][0] == '%' || s[end..][0] == '$')
  {
  }

  function Read(p: Parts): (l: Location) {
    Location(NormalizedCarrier(p.carrier), Trim(p.room, BLANKS), Trim(p.key, BLANKS))
  }

  predicate Whole(l: Location) {
    l.carrier != "" && l.room != "" && l.key != ""
  }

  /** Carrier, room and key of a line; none where it is not shaped like one. */
  function Fields(line: string): (r: Option<Location>)
    requires IsUri(line)
  {
    match Cut(line[|URI_PREFIX|..])
    case None => None
    case Some(p) => if Whole(Read(p)) then Some(Read(p)) else None
  }

  /** A line has the fields of the parts it is written from, and of no others. */
  lemma FieldsAre(line: string, l: Location)
    requires IsUri(line)
    ensures Fields(line) == Some(l) <==>
            exists p :: Apart(p) && line == URI_PREFIX + Joined(p) && Read(p) == l && Whole(l)
  {
    var payload := line[|URI_PREFIX|..];
    assert line == URI_PREFIX + payload;
    if Fields(line) == Some(l) {
      CutJoined(payload);
      var p := Cut(payload).value;
      assert Apart(p) && line == URI_PREFIX + Joined(p) && Read(p) == l && Whole(l);
    }
    if p :| Apart(p) && line == URI_PREFIX + Joined(p) && Read(p) == l && Whole(l) {
      assert payload == Joined(p);
      JoinedCut(p);
    }
  }

  // ---------------------------------------------------------------------
  // The lines of a location

  datatype Wanted = Wanted(key: string, carrier: string)

  predicate Ours(line: string, w: Wanted) {
    && IsUri(line) && Fields(line).Some?
    && Lower(Fields(line).value.key) == w.key && Fields(line).value.carrier == w.carrier
  }

  function SplitRooms(value: string): (rooms: seq<string>) {
    Split(value, WHITES + {','})
  }

  /** The rooms a `##rooms` header lists; none for any other line. */
  function HeaderRooms(line: string): (rooms: seq<string>) {
    if !("##" <= line) then []
    else
      match CutAt(line[2..], ':')
      case None => []
      case Some((name, value)) => if Lower(Trim(name, BLANKS)) == "rooms" then SplitRooms(value) else []
  }

  /** A line as the location sees it: one of its own, another olcrtc line, or any other
      line with the rooms it lists. */
  datatype Line = Own(room: string) | Foreign | Other(rooms: seq<string>)

  function Classify(line: string, w: Wanted): (l: Line) {
    if Ours(line, w) then Own(Fields(line).value.room)
    else if IsUri(line) then Foreign
    else Other(HeaderRooms(line))
  }

  /** The lines of a text, blanks around them taken off, as the location sees them. */
  function Lines(text: string, w: Wanted): (lines: seq<Line>) {
    var parts := Split(text, NEWLINES);
    seq(|parts|, i requires 0 <= i < |parts| => Classify(Trim(parts[i], BLANKS), w))
  }

  ghost predicate NearestBefore(lines: seq<Line>, j: nat, n: nat)
    requires j < n <= |lines|
  {
    !lines[j].Other? && forall k :: j < k < n ==> lines[k].Other?
  }

  /** Whether the nearest olcrtc line before line n is the location's. */
  function LastIsOurs(lines: seq<Line>, n: nat): (r: bool)
    requires n <= |lines|
  {
    if n == 0 then false
    else if !lines[n - 1].Other? then lines[n - 1].Own?
    else LastIsOurs(lines, n - 1)
  }

  lemma {:induction false} LastIsNearest(lines: seq<Line>, n: nat)
    requires n <= |lines|
    ensures LastIsOurs(lines, n) <==> exists j :: 0 <= j < n && NearestBefore(lines, j, n) && lines[j].Own?
  {
    if n > 0 {
      if lines[n - 1].Other? {
        LastIsNearest(lines, n - 1);
        assert forall j :: 0 <= j < n - 1 ==> (NearestBefore(lines, j, n) <==> NearestBefore(lines, j, n - 1));
      } else {
        assert forall j :: 0 <= j < n && NearestBefore(lines, j, n) ==> j == n - 1;
        assert NearestBefore(lines, n - 1, n);
      }
    }
  }

  /** The rooms line i gives the location. */
  function RoomsAt(lines: seq<Line>, i: nat): (rooms: seq<string>)
    requires i < |lines|
  {
    match lines[i]
    case Own(room) => [room]
    case Foreign => []
    case Other(rooms) => if LastIsOurs(lines, i) then rooms else []
  }

  /** The rooms the first n lines give it, in their order. */
  function Mentioned(lines: seq<Line>, n: nat): (rooms: seq<string>)
    requires n <= |lines|
  {
    if n == 0 then [] else Mentioned(lines, n - 1) + RoomsAt(lines, n - 1)
  }

  /** Each text where it first comes. */
  function Unique(s: seq<string>): (r: seq<string>) {
    if s == [] then []
    else
      var front, last := s[..|s| - 1], s[|s| - 1];
      if last in front then Unique(front) else Unique(front) + [last]
  }

  /** What a location's own line is, said of the text: the prefix, a name of the wanted
      carrier, the room, and the wanted key in any case, each where its mark has it. */
  lemma OwnLineIs(line: string, w: Wanted, room: string)
    ensures Classify(line, w) == Own(room) <==>
            exists p :: Apart(p) && line == "olcrtc://" + Joined(p) && Names(p, w, room)
  {
    if Classify(line, w) == Own(room) {
      var l := Fields(line).value;
      FieldsAre(line, l);
      var p :| Apart(p) && line == URI_PREFIX + Joined(p) && Read(p) == l && Whole(l);
      assert Names(p, w, room);
    }
    if p :| Apart(p) && line == "olcrtc://" + Joined(p) && Names(p, w, room) {
      var l := Location(w.carrier, room, Trim(p.key, BLANKS));
      assert IsUri(line) && Read(p) == l && Whole(l);
      FieldsAre(line, l);
    }
  }

  /** The parts of a line name a room of the wanted carrier and key. */
  ghost predicate Names(p: Parts, w: Wanted, room: string) {
    && NormalizedCarrier(p.carrier) == w.carrier != ""
    && Trim(p.room, {' ', '\t'}) == room != ""
    && Trim(p.key, {' ', '\t'}) != "" && Lower(Trim(p.key, {' ', '\t'})) == w.key
  }

  /** A header of two hashes, a name that is "rooms" in any case, a colon, and a value with
      the room between commas and white space. */
  ghost predicate HeaderWith(line: string, name: string, value: string, room: string) {
    && ':' !in name && line == "##" + (name + (":" + value))
    && Lower(Trim(name, {' ', '\t'})) == "rooms"
    && HasStretch(value, {' ', '\t', '\n', '\r', '\U{000B}', '\U{000C}', ','}, room)
  }

  /** What the rooms of a header are, said of the text. */
  lemma HeaderIs(line: string, room: string)
    ensures room in HeaderRooms(line) <==> exists name, value :: HeaderWith(line, name, value, room)
  {
    var seps := {' ', '\t', '\n', '\r', '\U{000B}', '\U{000C}', ','};
    assert WHITES + {','} == seps;
    if room in HeaderRooms(line) {
      var cut := CutAt(line[2..], ':').value;
      CutAtIs(line[2..], ':', cut.0, cut.1);
      SplitIs(cut.1, seps, room);
      assert line == "##" + line[2..];
      assert HeaderWith(line, cut.0, cut.1, room);
    }
    if name, value :| HeaderWith(line, name, value, room) {
      assert line[2..] == name + (":" + value);
      CutAtIs(line[2..], ':', name, value);
      SplitIs(value, seps, room);
    }
  }

  /** A line that begins like a link is the location's own or another's; any other line is
      a header or nothing. */
  lemma OtherLineIs(line: string, w: Wanted)
    ensures Classify(line, w).Other? <==> !exists rest :: line == "olcrtc://" + rest
    ensures Classify(line, w).Other? ==> Classify(line, w).rooms == HeaderRooms(line)
  {
    if URI_PREFIX <= line {
      assert line == "olcrtc://" + line[|URI_PREFIX|..];
    }
  }

  // ---------------------------------------------------------------------
  // The body

  predicate Contains(s: string, part: string) {
    part <= s || (s != "" && Contains(s[1..], part))
  }

  function Compact(s: string): (r: string) {
    if s == "" then "" else if s[0] in WHITES then Compact(s[1..]) else [s[0]] + Compact(s[1..])
  }

  predicate IsBase64(c: char) {
    'a' <= c <= 'z' || 'A' <= c <= 'Z' || '0' <= c <= '9' || c in {'+', '/', '-', '_', '='}
  }

  function Standard(s: string): (r: string) {
    if s == "" then ""
    else [if s[0] == '-' then '+' else if s[0] == '_' then '/' else s[0]] + Standard(s[1..])
  }

  function PaddedTo4(s: string): (r: string)
    ensures |r| % 4 == 0 && s <= r
  {
    s + seq((4 - |s| % 4) % 4, _ => '=')
  }

  /** The lines themselves, or base64 of them; decoded only when the result plainly carries
      links. */
  function DecodeBody(body: string, base64: string -> Option<string>): (text: string) {
    var compact := Compact(body);
    if Contains(body, "://") then body
    else if |compact| < 16 || exists i :: 0 <= i < |compact| && !IsBase64(compact[i]) then body
    else
      var decoded := base64(PaddedTo4(Standard(compact)));
      if decoded.Some? && Contains(decoded.value, "://") then decoded.value else body
  }

  /** A body with a link in it is never touched, and one that was decoded has one; so
      decoding again changes nothing. */
  lemma DecodedOnce(body: string, base64: string -> Option<string>)
    ensures Contains(body, "://") ==> DecodeBody(body, base64) == body
    ensures DecodeBody(body, base64) != body ==> Contains(DecodeBody(body, base64), "://")
    ensures DecodeBody(DecodeBody(body, base64), base64) == DecodeBody(body, base64)
  {
  }

  lemma {:induction false} ContainsIs(s: string, part: string)
    ensures Contains(s, part) <==> exists before, after :: s == before + (part + after)
  {
    if part <= s {
      assert s == "" + (part + s[|part|..]);
    }
    if s != "" {
      ContainsIs(s[1..], part);
      if Contains(s[1..], part) {
        var before, after :| s[1..] == before + (part + after);
        assert s == ([s[0]] + before) + (part + after);
      }
    }
    if before, after :| s == before + (part + after) {
      if before == "" {
        assert s == part + after;
      } else {
        assert s[1..] == before[1..] + (part + after);
      }
    }
  }

  /** Text of fewer than 16 characters, white space aside, or with one that is no letter, no
      digit and none of + - / = _ is what it is. */
  lemma OtherTextStays(body: string, base64: string -> Option<string>, i: nat)
    requires var c := Compact(body);
             || |c| < 16
             || (i < |c| && var n := c[i] as int;
                 !(97 <= n <= 122 || 65 <= n <= 90 || 48 <= n <= 57 || n in {43, 45, 47, 61, 95}))
    ensures DecodeBody(body, base64) == body
  {
  }

  predicate IsStandard(c: char) {
    'a' <= c <= 'z' || 'A' <= c <= 'Z' || '0' <= c <= '9' || c == '+' || c == '/'
  }

  /** Base64 as links carry it. */
  function UrlSafe(s: string): (r: string)
    ensures |r| == |s|
    ensures forall i :: 0 <= i < |s| ==> r[i] == if s[i] == '+' then '-' else if s[i] == '/' then '_' else s[i]
  {
    seq(|s|, i requires 0 <= i < |s| => if s[i] == '+' then '-' else if s[i] == '/' then '_' else s[i])
  }

  lemma {:induction false} StandardAt(s: string)
    ensures |Standard(s)| == |s|
    ensures forall i :: 0 <= i < |s| ==>
              Standard(s)[i] == if s[i] == '-' then '+' else if s[i] == '_' then '/' else s[i]
  {
    if s != "" {
      StandardAt(s[1..]);
    }
  }

  /** Compacting drops the white space and keeps everything else, in its order. */
  lemma {:induction false} CompactAppend(a: string, b: string)
    ensures Compact(a + b) == Compact(a) + Compact(b)
    ensures (forall i :: 0 <= i < |a| ==> a[i] in WHITES) ==> Compact(a) == ""
    ensures (forall i :: 0 <= i < |a| ==> a[i] !in WHITES) ==> Compact(a) == a
  {
    if a == "" {
      assert a + b == b;
    } else {
      CompactAppend(a[1..], b);
      assert (a + b)[1..] == a[1..] + b;
      assert [a[0]] + a[1..] == a;
    }
  }

  lemma {:induction false} NoColon(body: string)
    requires ':' !in Compact(body)
    ensures ':' !in body && !Contains(body, "://")
  {
    if body != "" {
      NoColon(body[1..]);
    }
  }

  /** A body that is base64 of a text with a link, standard or as links carry it, padded or
      not, however it is wrapped, is read as that text. */
  lemma DecodesEncoded(body: string, core: string, pad: string, text: string, base64: string -> Option<string>)
    requires |core| >= 16 && forall i :: 0 <= i < |core| ==> IsStandard(core[i])
    requires |pad| < 4 && |core + pad| % 4 == 0 && forall i :: 0 <= i < |pad| ==> pad[i] == '='
    requires base64(core + pad) == Some(text) && Contains(text, "://")
    requires Compact(body) in [core, UrlSafe(core), core + pad, UrlSafe(core) + pad]
    ensures DecodeBody(body, base64) == text
  {
    var compact := Compact(body);
    assert forall i :: 0 <= i < |compact| ==> IsBase64(compact[i]) && compact[i] != ':';
    NoColon(body);
    StandardAt(compact);
    var padded := PaddedTo4(Standard(compact));
    assert |padded| == |core + pad|;
    assert padded == core + pad;
  }

  // ---------------------------------------------------------------------
  // Reading a subscription

  datatype Parsed = Parsed(primary: string, extras: seq<string>)

  /** Primary first, then the extras, no duplicates. */
  method All(p: Parsed) returns (all: seq<string>)
    ensures all == Unique([p.primary] + p.extras)
    ensures |all| > 0 && all[0] == p.primary
  {
    var given := [p.primary] + p.extras;
    var seen: set<string> := {};
    all := [];
    for i := 0 to |given|
      invariant all == Unique(given[..i])
      invariant forall r :: r in seen <==> r in given[..i]
      invariant i > 0 ==> |all| > 0 && all[0] == p.primary
    {
      assert given[..i + 1][..i] == given[..i];
      if given[i] !in seen {
        seen := seen + {given[i]};
        all := all + [given[i]];
      }
    }
    assert given[..|given|] == given;
  }

  function WantedOf(keyHex: string, carrier: string): (w: Wanted) {
    Wanted(Lower(Trim(keyHex, WHITES)), NormalizedCarrier(carrier))
  }

  /** A location is wanted by its key in lower case and its carrier by the engine's name,
      whatever white space is around either. */
  lemma WantedMeans(a: string, key: string, b: string, c: string, carrier: string, d: string)
    requires AllIn(a, WHITES) && AllIn(b, WHITES) && AllIn(c, WHITES) && AllIn(d, WHITES)
    requires key != "" && key[0] !in WHITES && key[|key| - 1] !in WHITES
    requires carrier != "" && carrier[0] !in WHITES && carrier[|carrier| - 1] !in WHITES
    ensures WantedOf(a + key + b, c + carrier + d) == Wanted(Lower(key), Canonical(Lower(carrier)))
  {
    TrimOff(a, key, b, WHITES);
    TrimOff(c, carrier, d, WHITES);
  }

  method Parse(body: string, keyHex: string, carrier: string,
      base64: string -> Option<string>) returns (r: Option<Parsed>)
    ensures var w := WantedOf(keyHex, carrier);
            var lines := Lines(DecodeBody(body, base64), w);
            && (r.Some? <==> w.key != "" && w.carrier != "" && exists i :: 0 <= i < |lines| && lines[i].Own?)
            && (r.Some? ==> [r.value.primary] + r.value.extras == Unique(Mentioned(lines, |lines|)))
  {
    var w := WantedOf(keyHex, carrier);
    var text := DecodeBody(body, base64);
    if w.key == "" || w.carrier == "" {
      return None;
    }
    var lines := Lines(text, w);
    r := ParseLines(lines);
    AnyOwnIs(lines, |lines|);
  }

  function AnyOwn(lines: seq<Line>, n: nat): (r: bool)
    requires n <= |lines|
  {
    n > 0 && (lines[n - 1].Own? || AnyOwn(lines, n - 1))
  }

  lemma {:induction false} AnyOwnIs(lines: seq<Line>, n: nat)
    requires n <= |lines|
    ensures AnyOwn(lines, n) <==> exists j :: 0 <= j < n && lines[j].Own?
  {
    if n > 0 {
      AnyOwnIs(lines, n - 1);
    }
  }

  function Gathered(primary: Option<string>, extras: seq<string>): (all: seq<string>) {
    if primary.None? then extras else [primary.value] + extras
  }

  lemma GatheredMore(primary: Option<string>, extras: seq<string>, more: seq<string>)
    ensures Gathered(primary, extras + more) == Gathered(primary, extras) + more
    ensures extras + [] == extras
  {
  }

  lemma GatheredFirst(room: string)
    ensures Gathered(Some(room), []) == Gathered(None, []) + [room]
  {
  }

  lemma NextLine(lines: seq<Line>, i: nat)
    requires i < |lines|
    ensures Mentioned(lines, i + 1) == Mentioned(lines, i) + RoomsAt(lines, i)
    ensures LastIsOurs(lines, i + 1) == if lines[i].Other? then LastIsOurs(lines, i) else lines[i].Own?
    ensures AnyOwn(lines, i + 1) == (AnyOwn(lines, i) || lines[i].Own?)
  {
  }

  /** The walk over the lines: what is gathered by its end. */
  method Gather(lines: seq<Line>) returns (primary: Option<string>, extras: seq<string>)
    ensures primary.Some? <==> AnyOwn(lines, |lines|)
    ensures primary.Some? ==> [primary.value] + extras == Mentioned(lines, |lines|)
  {
    primary, extras := None, [];
    var lastLineIsOurs := false;
    for i := 0 to |lines|
      invariant lastLineIsOurs == LastIsOurs(lines, i)
      invariant primary.Some? <==> AnyOwn(lines, i)
      invariant Gathered(primary, extras) == Mentioned(lines, i)
      invariant primary.None? ==> extras == [] && !lastLineIsOurs
    {
      NextLine(lines, i);
      GatheredMore(primary, extras, RoomsAt(lines, i));
      match lines[i] {
        case Own(room) =>
          lastLineIsOurs := true;
          if primary.None? {
            GatheredFirst(room);
            primary := Some(room);
          } else {
            extras := extras + [room];
          }
        case Foreign =>
          lastLineIsOurs := false;
        case Other(rooms) =>
          if lastLineIsOurs {
            extras := extras + rooms;
          }
      }
    }
  }

  method ParseLines(lines: seq<Line>) returns (r: Option<Parsed>)
    ensures r.Some? <==> AnyOwn(lines, |lines|)
    ensures r.Some? ==> [r.value.primary] + r.value.extras == Unique(Mentioned(lines, |lines|))
  {
    var primary, extras := Gather(lines);
    if primary.None? {
      return None;
    }
    var unique := All(Parsed(primary.value, extras));
    r := Some(Parsed(primary.value, unique[1..]));
  }

  // ---------------------------------------------------------------------
  // What is read

  /** A line with the wanted carrier and key names the room, or a `##rooms` header whose
      nearest preceding olcrtc line is one lists it. */
  ghost predicate Gives(lines: seq<Line>, i: nat, room: string)
    requires i < |lines|
  {
    match lines[i]
    case Own(own) => room == own
    case Foreign => false
    case Other(rooms) => room in rooms && exists j :: 0 <= j < i && NearestBefore(lines, j, i) && lines[j].Own?
  }

  lemma {:induction false} MentionedIs(lines: seq<Line>, n: nat, room: string)
    requires n <= |lines|
    ensures room in Mentioned(lines, n) <==> exists i :: 0 <= i < n && Gives(lines, i, room)
  {
    if n > 0 {
      MentionedIs(lines, n - 1, room);
      LastIsNearest(lines, n - 1);
      assert room in RoomsAt(lines, n - 1) <==> Gives(lines, n - 1, room);
    }
  }

  ghost predicate Distinct(s: seq<string>) {
    forall i, j :: 0 <= i < j < |s| ==> s[i] != s[j]
  }

  lemma {:induction false} UniqueIs(s: seq<string>)
    ensures forall x :: x in Unique(s) <==> x in s
    ensures Distinct(Unique(s))
    ensures s != [] ==> Unique(s) != [] && Unique(s)[0] == s[0]
  {
    if s != [] {
      var front, last := s[..|s| - 1], s[|s| - 1];
      UniqueIs(front);
      assert s == front + [last];
    }
  }

  lemma {:induction false} StartsWith(lines: seq<Line>, n: nat, first: nat)
    requires first < n <= |lines| && lines[first].Own?
    requires forall j :: 0 <= j < first ==> !lines[j].Own?
    ensures Mentioned(lines, n) != [] && Mentioned(lines, n)[0] == lines[first].room
  {
    if n > first + 1 {
      StartsWith(lines, n - 1, first);
    } else {
      NothingBefore(lines, first);
    }
  }

  lemma {:induction false} NothingBefore(lines: seq<Line>, n: nat)
    requires n <= |lines| && forall j :: 0 <= j < n ==> !lines[j].Own?
    ensures Mentioned(lines, n) == []
  {
    if n > 0 {
      NothingBefore(lines, n - 1);
      LastIsNearest(lines, n - 1);
    }
  }

  /** The result, said of the text: exactly the rooms some line gives the location, none
      twice, and the room of the first matching line first. */
  lemma ParsedIs(lines: seq<Line>, first: nat, room: string)
    requires first < |lines| && lines[first].Own?
    requires forall j :: 0 <= j < first ==> !lines[j].Own?
    ensures var all := Unique(Mentioned(lines, |lines|));
            && (room in all <==> exists i :: 0 <= i < |lines| && Gives(lines, i, room))
            && Distinct(all)
            && all != [] && all[0] == lines[first].room
  {
    MentionedIs(lines, |lines|, room);
    UniqueIs(Mentioned(lines, |lines|));
    StartsWith(lines, |lines|, first);
  }
}
