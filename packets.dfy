/**
 * The four response payloads of the SA-MP / open.mp query protocol, as the
 * bytes that follow the type tag. Each `Parse*` function is the reference
 * reading of one payload: it yields the fully populated packet, or `None`
 * as soon as any field would read past the end of the bytes. Bytes left
 * over after the last field are ignored. Each payload also has a reference
 * encoder, and the lemmas connect the two.
 */
module Packets {
  import opened Wrappers
  import opened Bytes

  /**
   * The byte-to-text transcoder the decoders apply to every string field
   * (it copes with legacy 8-bit encodings). Its workings are not part of
   * this model; it is passed in as a function.
   */
  type Transcoder = Bytes -> string

  datatype InfoPacket = InfoPacket(
    password: bool, players: nat, maxPlayers: nat,
    hostname: string, gamemode: string, language: string)

  datatype Player = Player(name: string, score: int)

  datatype ExtraInfoPacket = ExtraInfoPacket(
    discordLink: string, lightBannerUrl: string, darkBannerUrl: string, logoUrl: string)

  /** A rule travels as the two-element list [name, value]. */
  type Rule = seq<string>

  // ---------------------------------------------------------------- decoding

  /** A string with a little-endian u32 byte-length prefix. */
  function TakeText32(s: Bytes, dec: Transcoder): (r: Option<Taken<string>>)
    ensures r.Some? ==> |r.value.rest| <= |s|
  {
    var len :- TakeU32(s);
    var raw :- TakeBytes(len.rest, len.value);
    Some(Taken(dec(raw.value), raw.rest))
  }

  /** A string with a one-byte length prefix. */
  function TakeText8(s: Bytes, dec: Transcoder): (r: Option<Taken<string>>)
    ensures r.Some? ==> |r.value.rest| < |s|
  {
    var len :- TakeU8(s);
    var raw :- TakeBytes(len.rest, len.value);
    Some(Taken(dec(raw.value), raw.rest))
  }

  /** Tag 'i': i8 password flag, u16 players, u16 max players, hostname, gamemode, language. */
  function ParseInfo(s: Bytes, dec: Transcoder): (r: Option<InfoPacket>)
    ensures r.Some? ==> 5 <= |s| && r.value.password == (s[0] != 0)
    ensures r.Some? ==> r.value.players < U16_LIMIT && r.value.maxPlayers < U16_LIMIT
  {
    var password :- TakeU8(s);
    var players :- TakeU16(password.rest);
    var maxPlayers :- TakeU16(players.rest);
    var hostname :- TakeText32(maxPlayers.rest, dec);
    var gamemode :- TakeText32(hostname.rest, dec);
    var language :- TakeText32(gamemode.rest, dec);
    Some(InfoPacket(password.value != 0, players.value, maxPlayers.value,
                    hostname.value, gamemode.value, language.value))
  }

  /**
   * Tag 'o': discord link, light banner, dark banner, each read
   * unconditionally, then the logo URL only when bytes remain; without
   * them the logo URL stays empty.
   */
  function ParseExtraInfo(s: Bytes, dec: Transcoder): (r: Option<ExtraInfoPacket>)
    ensures r.Some? ==> 12 <= |s| && TextsReadable(s, 3, dec)
    ensures r.Some? ==> r.value.discordLink == TakeText32(s, dec).value.value
  {
    var discord :- TakeText32(s, dec);
    var light :- TakeText32(discord.rest, dec);
    var dark :- TakeText32(light.rest, dec);
    if |dark.rest| > 0 then
      var logo :- TakeText32(dark.rest, dec);
      Some(ExtraInfoPacket(discord.value, light.value, dark.value, logo.value))
    else
      Some(ExtraInfoPacket(discord.value, light.value, dark.value, ""))
  }

  /** One player entry: u8 name length, name, i32 score. */
  function TakePlayer(s: Bytes, dec: Transcoder): (r: Option<Taken<Player>>)
    ensures r.Some? ==> IsI32(r.value.value.score)
  {
    var name :- TakeText8(s, dec);
    var score :- TakeI32(name.rest);
    Some(Taken(Player(name.value, score.value), score.rest))
  }

  /** The first `n` player entries, in wire order. */
  function TakePlayers(s: Bytes, n: nat, dec: Transcoder): (r: Option<Taken<seq<Player>>>)
    ensures r.Some? ==> |r.value.value| == n
    decreases n
  {
    if n == 0 then Some(Taken([], s))
    else
      var before :- TakePlayers(s, n - 1, dec);
      var player :- TakePlayer(before.rest, dec);
      Some(Taken(before.value + [player.value], player.rest))
  }

  /** Tag 'c': u16 count N, then N player entries. */
  function ParsePlayers(s: Bytes, dec: Transcoder): (r: Option<seq<Player>>)
    ensures r.Some? ==> 2 <= |s| && |r.value| == s[0] as int + 0x100 * s[1] as int
  {
    var count :- TakeU16(s);
    var players :- TakePlayers(count.rest, count.value, dec);
    Some(players.value)
  }

  /** One rule entry: u8 name length, name, u8 value length, value. */
  function TakeRule(s: Bytes, dec: Transcoder): (r: Option<Taken<Rule>>)
    ensures r.Some? ==> |r.value.value| == 2
  {
    var name :- TakeText8(s, dec);
    var value :- TakeText8(name.rest, dec);
    Some(Taken([name.value, value.value], value.rest))
  }

  /** The first `n` rule entries, in wire order. */
  function TakeRules(s: Bytes, n: nat, dec: Transcoder): (r: Option<Taken<seq<Rule>>>)
    ensures r.Some? ==> |r.value.value| == n
    ensures r.Some? ==> forall k :: 0 <= k < n ==> |r.value.value[k]| == 2
    decreases n
  {
    if n == 0 then Some(Taken([], s))
    else
      var before :- TakeRules(s, n - 1, dec);
      var rule :- TakeRule(before.rest, dec);
      Some(Taken(before.value + [rule.value], rule.rest))
  }

  /** Tag 'r': u16 count N, then N rule entries. */
  function ParseRules(s: Bytes, dec: Transcoder): (r: Option<seq<Rule>>)
    ensures r.Some? ==> 2 <= |s| && |r.value| == s[0] as int + 0x100 * s[1] as int
    ensures r.Some? ==> forall k :: 0 <= k < |r.value| ==> |r.value[k]| == 2
  {
    var count :- TakeU16(s);
    var rules :- TakeRules(count.rest, count.value, dec);
    Some(rules.value)
  }

  // ---------------------------------------------------------------- encoding

  function EncodeText32(b: Bytes): (e: Bytes)
    requires |b| < U32_LIMIT
    ensures |e| == 4 + |b|
  {
    EncodeU32(|b|) + b
  }

  function EncodeText8(b: Bytes): (e: Bytes)
    requires |b| < 0x100
    ensures |e| == 1 + |b|
  {
    [|b|] + b
  }

  /** The raw fields of an info payload, strings still as bytes. */
  datatype InfoWire = InfoWire(
    password: byte, players: nat, maxPlayers: nat,
    hostname: Bytes, gamemode: Bytes, language: Bytes)
  {
    predicate Valid() {
      players < U16_LIMIT && maxPlayers < U16_LIMIT &&
      |hostname| < U32_LIMIT && |gamemode| < U32_LIMIT && |language| < U32_LIMIT
    }
  }

  function EncodeInfo(w: InfoWire): Bytes
    requires w.Valid()
  {
    [w.password] + EncodeU16(w.players) + EncodeU16(w.maxPlayers) +
    EncodeText32(w.hostname) + EncodeText32(w.gamemode) + EncodeText32(w.language)
  }

  /** What a decoder should report for the raw fields `w`. */
  function InfoOf(w: InfoWire, dec: Transcoder): InfoPacket {
    InfoPacket(w.password != 0, w.players, w.maxPlayers,
               dec(w.hostname), dec(w.gamemode), dec(w.language))
  }

  datatype PlayerWire = PlayerWire(name: Bytes, score: int) {
    predicate Valid() {
      |name| < 0x100 && IsI32(score)
    }
  }

  function EncodePlayer(w: PlayerWire): Bytes
    requires w.Valid()
  {
    EncodeText8(w.name) + EncodeI32(w.score)
  }

  function EncodePlayerEntries(ws: seq<PlayerWire>): Bytes
    requires forall k :: 0 <= k < |ws| ==> ws[k].Valid()
  {
    if ws == [] then [] else EncodePlayerEntries(ws[..|ws| - 1]) + EncodePlayer(ws[|ws| - 1])
  }

  function EncodePlayers(ws: seq<PlayerWire>): Bytes
    requires |ws| < U16_LIMIT && forall k :: 0 <= k < |ws| ==> ws[k].Valid()
  {
    EncodeU16(|ws|) + EncodePlayerEntries(ws)
  }

  /** The players a decoder should report for the raw entries `ws`, in the same order. */
  function PlayersOf(ws: seq<PlayerWire>, dec: Transcoder): seq<Player> {
    if ws == [] then []
    else PlayersOf(ws[..|ws| - 1], dec) + [Player(dec(ws[|ws| - 1].name), ws[|ws| - 1].score)]
  }

  datatype RuleWire = RuleWire(name: Bytes, value: Bytes) {
    predicate Valid() {
      |name| < 0x100 && |value| < 0x100
    }
  }

  function EncodeRule(w: RuleWire): Bytes
    requires w.Valid()
  {
    EncodeText8(w.name) + EncodeText8(w.value)
  }

  function EncodeRuleEntries(ws: seq<RuleWire>): Bytes
    requires forall k :: 0 <= k < |ws| ==> ws[k].Valid()
  {
    if ws == [] then [] else EncodeRuleEntries(ws[..|ws| - 1]) + EncodeRule(ws[|ws| - 1])
  }

  function EncodeRules(ws: seq<RuleWire>): Bytes
    requires |ws| < U16_LIMIT && forall k :: 0 <= k < |ws| ==> ws[k].Valid()
  {
    EncodeU16(|ws|) + EncodeRuleEntries(ws)
  }

  /** The rules a decoder should report for the raw entries `ws`, in the same order. */
  function RulesOf(ws: seq<RuleWire>, dec: Transcoder): seq<Rule> {
    if ws == [] then []
    else RulesOf(ws[..|ws| - 1], dec) + [[dec(ws[|ws| - 1].name), dec(ws[|ws| - 1].value)]]
  }

  /** The raw fields of an extra-info payload; the logo is absent when nothing follows the banners. */
  datatype ExtraInfoWire = ExtraInfoWire(discord: Bytes, light: Bytes, dark: Bytes, logo: Option<Bytes>) {
    predicate Valid() {
      |discord| < U32_LIMIT && |light| < U32_LIMIT && |dark| < U32_LIMIT
      && (logo.Some? ==> |logo.value| < U32_LIMIT)
    }
  }

  function EncodeExtraInfo(w: ExtraInfoWire): Bytes
    requires w.Valid()
  {
    EncodeTexts([w.discord, w.light, w.dark]) + (if w.logo.Some? then EncodeText32(w.logo.value) else [])
  }

  /** What a decoder should report for the raw fields `w`: an absent logo is the empty URL. */
  function ExtraInfoOf(w: ExtraInfoWire, dec: Transcoder): ExtraInfoPacket {
    ExtraInfoPacket(dec(w.discord), dec(w.light), dec(w.dark), if w.logo.Some? then dec(w.logo.value) else "")
  }

  // ---------------------------------------------------------------- round trips

  lemma Text32RoundTrip(b: Bytes, tail: Bytes, dec: Transcoder)
    requires |b| < U32_LIMIT
    ensures TakeText32(EncodeText32(b) + tail, dec) == Some(Taken(dec(b), tail))
  {
    Associative(EncodeU32(|b|), b, tail);
    U32RoundTrip(|b|, b + tail);
    TakeBytesRoundTrip(b, tail);
  }

  lemma Text8RoundTrip(b: Bytes, tail: Bytes, dec: Transcoder)
    requires |b| < 0x100
    ensures TakeText8(EncodeText8(b) + tail, dec) == Some(Taken(dec(b), tail))
  {
    assert (EncodeText8(b) + tail)[1..] == b + tail;
    TakeBytesRoundTrip(b, tail);
  }

  /** Decoding an encoded info payload gives back every field; `password` is true iff its byte is nonzero. */
  lemma InfoRoundTrip(w: InfoWire, tail: Bytes, dec: Transcoder)
    requires w.Valid()
    ensures ParseInfo(EncodeInfo(w) + tail, dec) == Some(InfoOf(w, dec))
  {
    var r5 := EncodeText32(w.language) + tail;
    var r4 := EncodeText32(w.gamemode) + r5;
    var r3 := EncodeText32(w.hostname) + r4;
    var r2 := EncodeU16(w.maxPlayers) + r3;
    var r1 := EncodeU16(w.players) + r2;
    InfoLayout(w, r1, r2, r3, r4, r5, tail);
    assert ([w.password] + r1)[1..] == r1;
    U16RoundTrip(w.players, r2);
    U16RoundTrip(w.maxPlayers, r3);
    Text32RoundTrip(w.hostname, r4, dec);
    Text32RoundTrip(w.gamemode, r5, dec);
    Text32RoundTrip(w.language, tail, dec);
  }

  lemma PlayerRoundTrip(w: PlayerWire, tail: Bytes, dec: Transcoder)
    requires w.Valid()
    ensures TakePlayer(EncodePlayer(w) + tail, dec) == Some(Taken(Player(dec(w.name), w.score), tail))
  {
    Associative(EncodeText8(w.name), EncodeI32(w.score), tail);
    Text8RoundTrip(w.name, EncodeI32(w.score) + tail, dec);
    I32RoundTrip(w.score, tail);
  }

  lemma {:induction false} PlayerEntriesRoundTrip(ws: seq<PlayerWire>, tail: Bytes, dec: Transcoder)
    requires forall k :: 0 <= k < |ws| ==> ws[k].Valid()
    ensures TakePlayers(EncodePlayerEntries(ws) + tail, |ws|, dec) == Some(Taken(PlayersOf(ws, dec), tail))
  {
    if ws == [] {
      assert EncodePlayerEntries(ws) + tail == tail;
    } else {
      var init, last := ws[..|ws| - 1], ws[|ws| - 1];
      var mid := EncodePlayer(last) + tail;
      var s := EncodePlayerEntries(ws) + tail;
      Associative(EncodePlayerEntries(init), EncodePlayer(last), tail);
      PlayerEntriesRoundTrip(init, mid, dec);
      PlayerRoundTrip(last, tail, dec);
      var p := Player(dec(last.name), last.score);
      TakePlayersStep(s, |ws|, Taken(PlayersOf(init, dec), mid), Taken(p, tail), dec);
    }
  }

  lemma TakePlayersStep(s: Bytes, n: nat, before: Taken<seq<Player>>, player: Taken<Player>, dec: Transcoder)
    requires 0 < n
    requires TakePlayers(s, n - 1, dec) == Some(before)
    requires TakePlayer(before.rest, dec) == Some(player)
    ensures TakePlayers(s, n, dec) == Some(Taken(before.value + [player.value], player.rest))
  {
  }

  /** Decoding an encoded player list gives back exactly its entries, in order. */
  lemma PlayersRoundTrip(ws: seq<PlayerWire>, tail: Bytes, dec: Transcoder)
    requires |ws| < U16_LIMIT && forall k :: 0 <= k < |ws| ==> ws[k].Valid()
    ensures ParsePlayers(EncodePlayers(ws) + tail, dec) == Some(PlayersOf(ws, dec))
  {
    Associative(EncodeU16(|ws|), EncodePlayerEntries(ws), tail);
    U16RoundTrip(|ws|, EncodePlayerEntries(ws) + tail);
    PlayerEntriesRoundTrip(ws, tail, dec);
  }

  lemma RuleRoundTrip(w: RuleWire, tail: Bytes, dec: Transcoder)
    requires w.Valid()
    ensures TakeRule(EncodeRule(w) + tail, dec) == Some(Taken([dec(w.name), dec(w.value)], tail))
  {
    Associative(EncodeText8(w.name), EncodeText8(w.value), tail);
    Text8RoundTrip(w.name, EncodeText8(w.value) + tail, dec);
    Text8RoundTrip(w.value, tail, dec);
  }

  lemma {:induction false} RuleEntriesRoundTrip(ws: seq<RuleWire>, tail: Bytes, dec: Transcoder)
    requires forall k :: 0 <= k < |ws| ==> ws[k].Valid()
    ensures TakeRules(EncodeRuleEntries(ws) + tail, |ws|, dec) == Some(Taken(RulesOf(ws, dec), tail))
  {
    if ws == [] {
      assert EncodeRuleEntries(ws) + tail == tail;
    } else {
      var init, last := ws[..|ws| - 1], ws[|ws| - 1];
      var mid := EncodeRule(last) + tail;
      var s := EncodeRuleEntries(ws) + tail;
      Associative(EncodeRuleEntries(init), EncodeRule(last), tail);
      RuleEntriesRoundTrip(init, mid, dec);
      RuleRoundTrip(last, tail, dec);
      TakeRulesStep(s, |ws|, Taken(RulesOf(init, dec), mid), Taken([dec(last.name), dec(last.value)], tail), dec);
    }
  }

  lemma TakeRulesStep(s: Bytes, n: nat, before: Taken<seq<Rule>>, rule: Taken<Rule>, dec: Transcoder)
    requires 0 < n
    requires TakeRules(s, n - 1, dec) == Some(before)
    requires TakeRule(before.rest, dec) == Some(rule)
    ensures TakeRules(s, n, dec) == Some(Taken(before.value + [rule.value], rule.rest))
  {
  }

  /** Decoding an encoded rule table gives back exactly its [name, value] pairs, in order. */
  lemma RulesRoundTrip(ws: seq<RuleWire>, tail: Bytes, dec: Transcoder)
    requires |ws| < U16_LIMIT && forall k :: 0 <= k < |ws| ==> ws[k].Valid()
    ensures ParseRules(EncodeRules(ws) + tail, dec) == Some(RulesOf(ws, dec))
  {
    Associative(EncodeU16(|ws|), EncodeRuleEntries(ws), tail);
    U16RoundTrip(|ws|, EncodeRuleEntries(ws) + tail);
    RuleEntriesRoundTrip(ws, tail, dec);
  }

  /** Three strings and nothing after them: the logo URL stays empty. */
  lemma ExtraInfoWithoutLogo(discord: Bytes, light: Bytes, dark: Bytes, dec: Transcoder)
    requires |discord| < U32_LIMIT && |light| < U32_LIMIT && |dark| < U32_LIMIT
    ensures ParseExtraInfo(EncodeText32(discord) + EncodeText32(light) + EncodeText32(dark), dec)
         == Some(ExtraInfoPacket(dec(discord), dec(light), dec(dark), ""))
  {
    var r2 := EncodeText32(dark) + [];
    var r1 := EncodeText32(light) + r2;
    assert EncodeText32(discord) + EncodeText32(light) + EncodeText32(dark) == EncodeText32(discord) + r1;
    Text32RoundTrip(discord, r1, dec);
    Text32RoundTrip(light, r2, dec);
    Text32RoundTrip(dark, [], dec);
  }

  /** A fourth string after the three: it becomes the logo URL. */
  lemma ExtraInfoWithLogo(discord: Bytes, light: Bytes, dark: Bytes, logo: Bytes, tail: Bytes, dec: Transcoder)
    requires |discord| < U32_LIMIT && |light| < U32_LIMIT && |dark| < U32_LIMIT && |logo| < U32_LIMIT
    ensures ParseExtraInfo(EncodeText32(discord) + EncodeText32(light) + EncodeText32(dark) + EncodeText32(logo) + tail, dec)
         == Some(ExtraInfoPacket(dec(discord), dec(light), dec(dark), dec(logo)))
  {
    var r3 := EncodeText32(logo) + tail;
    var r2 := EncodeText32(dark) + r3;
    var r1 := EncodeText32(light) + r2;
    assert EncodeText32(discord) + EncodeText32(light) + EncodeText32(dark) + EncodeText32(logo) + tail
        == EncodeText32(discord) + r1;
    Text32RoundTrip(discord, r1, dec);
    Text32RoundTrip(light, r2, dec);
    Text32RoundTrip(dark, r3, dec);
    Text32RoundTrip(logo, tail, dec);
  }

  /** One to three stray bytes after the third string: the logo read runs out and nothing is produced. */
  lemma ExtraInfoShortTrailer(discord: Bytes, light: Bytes, dark: Bytes, stray: Bytes, dec: Transcoder)
    requires |discord| < U32_LIMIT && |light| < U32_LIMIT && |dark| < U32_LIMIT
    requires 1 <= |stray| < 4
    ensures ParseExtraInfo(EncodeText32(discord) + EncodeText32(light) + EncodeText32(dark) + stray, dec) == None
  {
    var r2 := EncodeText32(dark) + stray;
    var r1 := EncodeText32(light) + r2;
    assert EncodeText32(discord) + EncodeText32(light) + EncodeText32(dark) + stray == EncodeText32(discord) + r1;
    Text32RoundTrip(discord, r1, dec);
    Text32RoundTrip(light, r2, dec);
    Text32RoundTrip(dark, stray, dec);
  }

  // ---------------------------------------------------------------- truncation

  lemma U8Prefix(x: byte, rest: Bytes, k: nat)
    requires k <= 1 + |rest|
    ensures TakeU8(([x] + rest)[..k]) == if k < 1 then None else Some(Taken(x, rest[..k - 1]))
  {
    if 1 <= k {
      assert ([x] + rest)[..k] == [x] + rest[..k - 1];
    }
  }

  lemma U16Prefix(n: nat, rest: Bytes, k: nat)
    requires n < U16_LIMIT && k <= 2 + |rest|
    ensures TakeU16((EncodeU16(n) + rest)[..k]) == if k < 2 then None else Some(Taken(n, rest[..k - 2]))
  {
    if 2 <= k {
      assert (EncodeU16(n) + rest)[..k] == EncodeU16(n) + rest[..k - 2];
      U16RoundTrip(n, rest[..k - 2]);
    }
  }

  lemma Text32Prefix(b: Bytes, rest: Bytes, k: nat, dec: Transcoder)
    requires |b| < U32_LIMIT && k <= 4 + |b| + |rest|
    ensures TakeText32((EncodeText32(b) + rest)[..k], dec)
         == if k < 4 + |b| then None else Some(Taken(dec(b), rest[..k - 4 - |b|]))
  {
    var p := (EncodeText32(b) + rest)[..k];
    if 4 + |b| <= k {
      assert p == EncodeText32(b) + rest[..k - 4 - |b|];
      Text32RoundTrip(b, rest[..k - 4 - |b|], dec);
    } else if 4 <= k {
      assert p == EncodeU32(|b|) + p[4..];
      U32RoundTrip(|b|, p[4..]);
    }
  }

  /** Cutting an info payload short anywhere, inside any field or length, leaves no InfoPacket. */
  lemma InfoTruncated(w: InfoWire, k: nat, dec: Transcoder)
    requires w.Valid() && k < |EncodeInfo(w)|
    ensures ParseInfo(EncodeInfo(w)[..k], dec) == None
  {
    InfoPrefixUnreadable(w, k, dec);
    if ParseInfo(EncodeInfo(w)[..k], dec).Some? {
      InfoReadable(EncodeInfo(w)[..k], dec);
    }
  }

  lemma InfoPrefixUnreadable(w: InfoWire, k: nat, dec: Transcoder)
    requires w.Valid() && k < |EncodeInfo(w)|
    ensures !InfoFieldsReadable(EncodeInfo(w)[..k], dec)
  {
    InfoLayoutTexts(w);
    if 5 <= k {
      InfoPrefixTexts(w, k);
      TextsPrefix([w.hostname, w.gamemode, w.language], k - 5, dec);
    }
  }

  /** Past the fixed five-byte header, a cut info payload is a cut string sequence. */
  lemma InfoPrefixTexts(w: InfoWire, k: nat)
    requires w.Valid() && 5 <= k <= 5 + |EncodeTexts([w.hostname, w.gamemode, w.language])|
    ensures k <= |EncodeInfo(w)|
    ensures EncodeInfo(w)[..k][1..][2..][2..] == EncodeTexts([w.hostname, w.gamemode, w.language])[..k - 5]
  {
    var r3 := EncodeTexts([w.hostname, w.gamemode, w.language]);
    var r2 := EncodeU16(w.maxPlayers) + r3;
    var r1 := EncodeU16(w.players) + r2;
    InfoLayoutTexts(w);
    DropTake([w.password], r1, k);
    DropTake(EncodeU16(w.players), r2, k - 1);
    DropTake(EncodeU16(w.maxPlayers), r3, k - 3);
  }

  lemma InfoLayoutTexts(w: InfoWire)
    requires w.Valid()
    ensures EncodeInfo(w)
         == [w.password] + (EncodeU16(w.players) + (EncodeU16(w.maxPlayers) + EncodeTexts([w.hostname, w.gamemode, w.language])))
  {
    var r5 := EncodeText32(w.language) + [];
    var r4 := EncodeText32(w.gamemode) + r5;
    var r3 := EncodeText32(w.hostname) + r4;
    ThreeTexts(w.hostname, w.gamemode, w.language);
    InfoLayout(w, EncodeU16(w.players) + (EncodeU16(w.maxPlayers) + r3), EncodeU16(w.maxPlayers) + r3, r3, r4, r5, []);
    AppendEmpty(EncodeInfo(w));
  }

  /** `n` length-prefixed strings, one after the other, can all be read. */
  predicate TextsReadable(s: Bytes, n: nat, dec: Transcoder)
    decreases n
  {
    n == 0 || (TakeText32(s, dec).Some? && TextsReadable(TakeText32(s, dec).value.rest, n - 1, dec))
  }

  function EncodeTexts(bs: seq<Bytes>): (e: Bytes)
    requires forall i :: 0 <= i < |bs| ==> |bs[i]| < U32_LIMIT
    ensures |e| >= 4 * |bs|
  {
    if bs == [] then [] else EncodeText32(bs[0]) + EncodeTexts(bs[1..])
  }

  lemma ThreeTexts(a: Bytes, b: Bytes, c: Bytes)
    requires |a| < U32_LIMIT && |b| < U32_LIMIT && |c| < U32_LIMIT
    ensures EncodeTexts([a, b, c]) == EncodeText32(a) + (EncodeText32(b) + (EncodeText32(c) + []))
  {
    assert [a, b, c][1..] == [b, c];
    assert [b, c][1..] == [c];
    assert [c][1..] == [];
    assert EncodeTexts([c]) == EncodeText32(c) + [];
    assert EncodeTexts([b, c]) == EncodeText32(b) + EncodeTexts([c]);
  }

  /** A strict prefix of consecutive strings never yields all of them. */
  lemma {:induction false} TextsPrefix(bs: seq<Bytes>, k: nat, dec: Transcoder)
    requires forall i :: 0 <= i < |bs| ==> |bs[i]| < U32_LIMIT
    requires k < |EncodeTexts(bs)|
    ensures !TextsReadable(EncodeTexts(bs)[..k], |bs|, dec)
  {
    var first, others := bs[0], EncodeTexts(bs[1..]);
    assert EncodeTexts(bs) == EncodeText32(first) + others;
    Text32Prefix(first, others, k, dec);
    if 4 + |first| <= k {
      TextsPrefix(bs[1..], k - 4 - |first|, dec);
    }
  }

  // ---------------------------------------------------------------- completeness

  /** Every readable length-prefixed string is the encoding of the raw bytes it was read from. */
  lemma Text32Inverse(s: Bytes, dec: Transcoder) returns (raw: Bytes, rest: Bytes)
    requires TakeText32(s, dec).Some?
    ensures |raw| < U32_LIMIT && s == EncodeText32(raw) + rest
    ensures TakeText32(s, dec) == Some(Taken(dec(raw), rest))
  {
    var n, afterLen := U32Inverse(s);
    raw, rest := afterLen[..n], afterLen[n..];
    assert afterLen == raw + rest;
    Associative(EncodeU32(n), raw, rest);
  }

  /**
   * An InfoPacket is produced only from a whole, well-formed info payload:
   * whatever was decoded is the decoding of raw fields whose encoding
   * starts the bytes.
   */
  lemma InfoOnlyFromEncoding(s: Bytes, dec: Transcoder)
    requires ParseInfo(s, dec).Some?
    ensures exists w: InfoWire :: w.Valid() && EncodeInfo(w) <= s && ParseInfo(s, dec) == Some(InfoOf(w, dec))
  {
    InfoReadable(s, dec);
    var w, tail := InfoSplit(s, dec);
    var e := EncodeInfo(w);
    assert e <= s by { assert s[..|e|] == e; }
    InfoRoundTrip(w, tail, dec);
  }

  /** Each field of a parseable info payload can be read where the previous one ends. */
  predicate InfoFieldsReadable(s: Bytes, dec: Transcoder) {
    5 <= |s| && TextsReadable(s[1..][2..][2..], 3, dec)
  }

  lemma InfoReadable(s: Bytes, dec: Transcoder)
    requires ParseInfo(s, dec).Some?
    ensures InfoFieldsReadable(s, dec)
  {
    var r3 := s[1..][2..][2..];
    var r4 := TakeText32(r3, dec).value.rest;
    var r5 := TakeText32(r4, dec).value.rest;
    assert TextsReadable(TakeText32(r5, dec).value.rest, 0, dec);
    assert TextsReadable(r5, 1, dec);
    assert TextsReadable(r4, 2, dec);
  }

  /** Cuts a parseable information payload into the encoding of its raw fields and a trailer. */
  lemma InfoSplit(s: Bytes, dec: Transcoder) returns (w: InfoWire, tail: Bytes)
    requires InfoFieldsReadable(s, dec)
    ensures w.Valid() && s == EncodeInfo(w) + tail
  {
    var r1 := s[1..];
    var players, r2 := U16Inverse(r1);
    var maxPlayers, r3 := U16Inverse(r2);
    assert TakeText32(r3, dec).Some?;
    assert TextsReadable(TakeText32(r3, dec).value.rest, 2, dec);
    assert TakeText32(TakeText32(r3, dec).value.rest, dec).Some?;
    assert TextsReadable(TakeText32(TakeText32(r3, dec).value.rest, dec).value.rest, 1, dec);
    var hostname, r4 := Text32Inverse(r3, dec);
    var gamemode, r5 := Text32Inverse(r4, dec);
    var language, r6 := Text32Inverse(r5, dec);
    w, tail := InfoWire(s[0], players, maxPlayers, hostname, gamemode, language), r6;
    InfoLayout(w, r1, r2, r3, r4, r5, tail);
    assert s == [s[0]] + r1;
  }

  /** The info encoding is the password byte followed by the chain of field encodings. */
  lemma InfoLayout(w: InfoWire, r1: Bytes, r2: Bytes, r3: Bytes, r4: Bytes, r5: Bytes, tail: Bytes)
    requires w.Valid()
    requires r5 == EncodeText32(w.language) + tail && r4 == EncodeText32(w.gamemode) + r5
    requires r3 == EncodeText32(w.hostname) + r4
    requires r2 == EncodeU16(w.maxPlayers) + r3 && r1 == EncodeU16(w.players) + r2
    ensures EncodeInfo(w) + tail == [w.password] + r1
  {
  }

  // ------------------------------------------------- completeness of the lists

  /** Every readable one-byte-length string is the encoding of the raw bytes it was read from. */
  lemma Text8Inverse(s: Bytes, dec: Transcoder) returns (raw: Bytes, rest: Bytes)
    requires TakeText8(s, dec).Some?
    ensures |raw| < 0x100 && s == EncodeText8(raw) + rest
    ensures TakeText8(s, dec) == Some(Taken(dec(raw), rest))
  {
    raw, rest := s[1..][..s[0]], s[1..][s[0]..];
    assert s == [s[0]] + (raw + rest);
  }

  /** Every four bytes are the encoding of the i32 they are read as. */
  lemma I32Inverse(s: Bytes) returns (v: int, rest: Bytes)
    requires 4 <= |s|
    ensures IsI32(v) && s == EncodeI32(v) + rest && TakeI32(s) == Some(Taken(v, rest))
  {
    var u, r := U32Inverse(s);
    v, rest := AsI32(u), r;
    assert (if v < 0 then v + U32_LIMIT else v) == u;
  }

  /** Every readable player entry is the encoding of a valid raw entry. */
  lemma PlayerInverse(s: Bytes, dec: Transcoder) returns (w: PlayerWire, rest: Bytes)
    requires TakePlayer(s, dec).Some?
    ensures w.Valid() && s == EncodePlayer(w) + rest
    ensures TakePlayer(s, dec) == Some(Taken(Player(dec(w.name), w.score), rest))
  {
    var name, afterName := Text8Inverse(s, dec);
    assert TakeI32(afterName).Some?;
    var score, r := I32Inverse(afterName);
    w, rest := PlayerWire(name, score), r;
    Associative(EncodeText8(name), EncodeI32(score), rest);
  }

  /** Whenever `n` player entries can be read, they are the encoding of `n` valid raw entries. */
  lemma {:induction false} PlayerEntriesInverse(s: Bytes, n: nat, dec: Transcoder) returns (ws: seq<PlayerWire>, rest: Bytes)
    requires TakePlayers(s, n, dec).Some?
    ensures |ws| == n && (forall k :: 0 <= k < n ==> ws[k].Valid())
    ensures s == EncodePlayerEntries(ws) + rest
    ensures TakePlayers(s, n, dec) == Some(Taken(PlayersOf(ws, dec), rest))
    decreases n
  {
    if n == 0 {
      ws, rest := [], s;
    } else {
      var init, mid := PlayerEntriesInverse(s, n - 1, dec);
      assert TakePlayer(mid, dec).Some?;
      var last, r := PlayerInverse(mid, dec);
      ws, rest := init + [last], r;
      assert ws[..|ws| - 1] == init && ws[|ws| - 1] == last;
      Associative(EncodePlayerEntries(init), EncodePlayer(last), rest);
      TakePlayersStep(s, n, Taken(PlayersOf(init, dec), mid), Taken(Player(dec(last.name), last.score), rest), dec);
    }
  }

  /**
   * A player list is produced only from a whole, well-formed players
   * payload: the bytes start with the encoding of raw entries that decode
   * to exactly the list produced.
   */
  lemma PlayersOnlyFromEncoding(s: Bytes, dec: Transcoder) returns (ws: seq<PlayerWire>, tail: Bytes)
    requires ParsePlayers(s, dec).Some?
    ensures |ws| < U16_LIMIT && (forall k :: 0 <= k < |ws| ==> ws[k].Valid())
    ensures s == EncodePlayers(ws) + tail && ParsePlayers(s, dec) == Some(PlayersOf(ws, dec))
  {
    var n, entries := U16Inverse(s);
    ws, tail := PlayerEntriesInverse(entries, n, dec);
    Associative(EncodeU16(n), EncodePlayerEntries(ws), tail);
  }

  /** Bytes appended after readable player entries are left over, untouched. */
  lemma PlayerEntriesExtend(a: Bytes, b: Bytes, n: nat, dec: Transcoder)
    requires TakePlayers(a, n, dec).Some?
    ensures var t := TakePlayers(a, n, dec).value;
            TakePlayers(a + b, n, dec) == Some(Taken(t.value, t.rest + b))
  {
    var ws, rest := PlayerEntriesInverse(a, n, dec);
    Associative(EncodePlayerEntries(ws), rest, b);
    PlayerEntriesRoundTrip(ws, rest + b, dec);
  }

  /** Cutting a players payload short anywhere leaves no player list. */
  lemma PlayersTruncated(ws: seq<PlayerWire>, k: nat, dec: Transcoder)
    requires |ws| < U16_LIMIT && (forall i :: 0 <= i < |ws| ==> ws[i].Valid())
    requires k < |EncodePlayers(ws)|
    ensures ParsePlayers(EncodePlayers(ws)[..k], dec) == None
  {
    var e := EncodePlayerEntries(ws);
    if 2 <= k {
      var cut := e[..k - 2];
      assert EncodePlayers(ws)[..k] == EncodeU16(|ws|) + cut;
      U16RoundTrip(|ws|, cut);
      PlayerEntriesCut(ws, k - 2, dec);
    }
  }

  lemma PlayerEntriesCut(ws: seq<PlayerWire>, j: nat, dec: Transcoder)
    requires (forall i :: 0 <= i < |ws| ==> ws[i].Valid()) && j < |EncodePlayerEntries(ws)|
    ensures TakePlayers(EncodePlayerEntries(ws)[..j], |ws|, dec).None?
  {
    var e := EncodePlayerEntries(ws);
    if TakePlayers(e[..j], |ws|, dec).Some? {
      assert e[..j] + e[j..] == e;
      PlayerEntriesWhole(ws, e[..j], e[j..], dec);
      assert false;
    }
  }

  /** No proper prefix of encoded player entries holds as many entries. */
  lemma PlayerEntriesWhole(ws: seq<PlayerWire>, cut: Bytes, dropped: Bytes, dec: Transcoder)
    requires forall i :: 0 <= i < |ws| ==> ws[i].Valid()
    requires cut + dropped == EncodePlayerEntries(ws) && TakePlayers(cut, |ws|, dec).Some?
    ensures dropped == []
  {
    PlayerEntriesExtend(cut, dropped, |ws|, dec);
    AppendEmpty(EncodePlayerEntries(ws));
    PlayerEntriesRoundTrip(ws, [], dec);
  }

  /** Every readable rule entry is the encoding of a valid raw entry. */
  lemma RuleInverse(s: Bytes, dec: Transcoder) returns (w: RuleWire, rest: Bytes)
    requires TakeRule(s, dec).Some?
    ensures w.Valid() && s == EncodeRule(w) + rest
    ensures TakeRule(s, dec) == Some(Taken([dec(w.name), dec(w.value)], rest))
  {
    var name, afterName := Text8Inverse(s, dec);
    assert TakeText8(afterName, dec).Some?;
    var value, r := Text8Inverse(afterName, dec);
    w, rest := RuleWire(name, value), r;
    Associative(EncodeText8(name), EncodeText8(value), rest);
  }

  /** Whenever `n` rule entries can be read, they are the encoding of `n` valid raw entries. */
  lemma {:induction false} RuleEntriesInverse(s: Bytes, n: nat, dec: Transcoder) returns (ws: seq<RuleWire>, rest: Bytes)
    requires TakeRules(s, n, dec).Some?
    ensures |ws| == n && (forall k :: 0 <= k < n ==> ws[k].Valid())
    ensures s == EncodeRuleEntries(ws) + rest
    ensures TakeRules(s, n, dec) == Some(Taken(RulesOf(ws, dec), rest))
    decreases n
  {
    if n == 0 {
      ws, rest := [], s;
    } else {
      var init, mid := RuleEntriesInverse(s, n - 1, dec);
      assert TakeRule(mid, dec).Some?;
      var last, r := RuleInverse(mid, dec);
      ws, rest := init + [last], r;
      assert ws[..|ws| - 1] == init && ws[|ws| - 1] == last;
      Associative(EncodeRuleEntries(init), EncodeRule(last), rest);
      TakeRulesStep(s, n, Taken(RulesOf(init, dec), mid), Taken([dec(last.name), dec(last.value)], rest), dec);
    }
  }

  /**
   * A rule table is produced only from a whole, well-formed rules payload:
   * the bytes start with the encoding of raw entries that decode to exactly
   * the table produced.
   */
  lemma RulesOnlyFromEncoding(s: Bytes, dec: Transcoder) returns (ws: seq<RuleWire>, tail: Bytes)
    requires ParseRules(s, dec).Some?
    ensures |ws| < U16_LIMIT && (forall k :: 0 <= k < |ws| ==> ws[k].Valid())
    ensures s == EncodeRules(ws) + tail && ParseRules(s, dec) == Some(RulesOf(ws, dec))
  {
    var n, entries := U16Inverse(s);
    ws, tail := RuleEntriesInverse(entries, n, dec);
    Associative(EncodeU16(n), EncodeRuleEntries(ws), tail);
  }

  /** Bytes appended after readable rule entries are left over, untouched. */
  lemma RuleEntriesExtend(a: Bytes, b: Bytes, n: nat, dec: Transcoder)
    requires TakeRules(a, n, dec).Some?
    ensures var t := TakeRules(a, n, dec).value;
            TakeRules(a + b, n, dec) == Some(Taken(t.value, t.rest + b))
  {
    var ws, rest := RuleEntriesInverse(a, n, dec);
    Associative(EncodeRuleEntries(ws), rest, b);
    RuleEntriesRoundTrip(ws, rest + b, dec);
  }

  /** Cutting a rules payload short anywhere leaves no rule table. */
  lemma RulesTruncated(ws: seq<RuleWire>, k: nat, dec: Transcoder)
    requires |ws| < U16_LIMIT && (forall i :: 0 <= i < |ws| ==> ws[i].Valid())
    requires k < |EncodeRules(ws)|
    ensures ParseRules(EncodeRules(ws)[..k], dec) == None
  {
    var e := EncodeRuleEntries(ws);
    if 2 <= k {
      var cut := e[..k - 2];
      assert EncodeRules(ws)[..k] == EncodeU16(|ws|) + cut;
      U16RoundTrip(|ws|, cut);
      RuleEntriesCut(ws, k - 2, dec);
    }
  }

  lemma RuleEntriesCut(ws: seq<RuleWire>, j: nat, dec: Transcoder)
    requires (forall i :: 0 <= i < |ws| ==> ws[i].Valid()) && j < |EncodeRuleEntries(ws)|
    ensures TakeRules(EncodeRuleEntries(ws)[..j], |ws|, dec).None?
  {
    var e := EncodeRuleEntries(ws);
    if TakeRules(e[..j], |ws|, dec).Some? {
      assert e[..j] + e[j..] == e;
      RuleEntriesWhole(ws, e[..j], e[j..], dec);
      assert false;
    }
  }

  /** No proper prefix of encoded rule entries holds as many entries. */
  lemma RuleEntriesWhole(ws: seq<RuleWire>, cut: Bytes, dropped: Bytes, dec: Transcoder)
    requires forall i :: 0 <= i < |ws| ==> ws[i].Valid()
    requires cut + dropped == EncodeRuleEntries(ws) && TakeRules(cut, |ws|, dec).Some?
    ensures dropped == []
  {
    RuleEntriesExtend(cut, dropped, |ws|, dec);
    AppendEmpty(EncodeRuleEntries(ws));
    RuleEntriesRoundTrip(ws, [], dec);
  }

  // ------------------------------------------------------------- extra info

  /**
   * After the three banner strings, the logo is read from whatever follows:
   * nothing leaves it empty, a readable string becomes it, and anything
   * else produces no packet.
   */
  lemma ExtraInfoTexts(discord: Bytes, light: Bytes, dark: Bytes, rest: Bytes, dec: Transcoder)
    requires |discord| < U32_LIMIT && |light| < U32_LIMIT && |dark| < U32_LIMIT
    ensures ParseExtraInfo(EncodeTexts([discord, light, dark]) + rest, dec)
         == if rest == [] then Some(ExtraInfoPacket(dec(discord), dec(light), dec(dark), ""))
            else match TakeText32(rest, dec)
                 case None => None
                 case Some(logo) => Some(ExtraInfoPacket(dec(discord), dec(light), dec(dark), logo.value))
  {
    var r2 := EncodeText32(dark) + rest;
    var r1 := EncodeText32(light) + r2;
    ThreeTexts(discord, light, dark);
    assert EncodeTexts([discord, light, dark]) + rest == EncodeText32(discord) + r1;
    Text32RoundTrip(discord, r1, dec);
    Text32RoundTrip(light, r2, dec);
    Text32RoundTrip(dark, rest, dec);
  }

  /** Decoding an encoded extra-info payload gives back its fields; a logo can only be absent at the very end. */
  lemma ExtraInfoRoundTrip(w: ExtraInfoWire, tail: Bytes, dec: Transcoder)
    requires w.Valid() && (w.logo.None? ==> tail == [])
    ensures ParseExtraInfo(EncodeExtraInfo(w) + tail, dec) == Some(ExtraInfoOf(w, dec))
  {
    var texts := EncodeTexts([w.discord, w.light, w.dark]);
    if w.logo.Some? {
      var logo := EncodeText32(w.logo.value);
      Associative(texts, logo, tail);
      ExtraInfoTexts(w.discord, w.light, w.dark, logo + tail, dec);
      Text32RoundTrip(w.logo.value, tail, dec);
    } else {
      assert EncodeExtraInfo(w) + tail == texts + [];
      ExtraInfoTexts(w.discord, w.light, w.dark, [], dec);
    }
  }

  /**
   * An extra-info packet is produced only from a well-formed payload: the
   * bytes start with the encoding of raw fields that decode to it, and an
   * empty logo from an absent one means nothing followed the banners.
   */
  lemma ExtraInfoOnlyFromEncoding(s: Bytes, dec: Transcoder) returns (w: ExtraInfoWire, tail: Bytes)
    requires ParseExtraInfo(s, dec).Some?
    ensures w.Valid() && s == EncodeExtraInfo(w) + tail
    ensures ParseExtraInfo(s, dec) == Some(ExtraInfoOf(w, dec))
    ensures w.logo.None? ==> tail == []
  {
    var discord, light, dark, r3 := ThreeTextsInverse(s, dec);
    var texts := EncodeTexts([discord, light, dark]);
    ExtraInfoTexts(discord, light, dark, r3, dec);
    if r3 == [] {
      w, tail := ExtraInfoWire(discord, light, dark, None), [];
      assert EncodeExtraInfo(w) == texts + [];
    } else {
      var logo, r4 := Text32Inverse(r3, dec);
      w, tail := ExtraInfoWire(discord, light, dark, Some(logo)), r4;
      Associative(texts, EncodeText32(logo), tail);
    }
  }

  /** Three readable strings are the encoding of the raw bytes they were read from. */
  lemma ThreeTextsInverse(s: Bytes, dec: Transcoder) returns (a: Bytes, b: Bytes, c: Bytes, rest: Bytes)
    requires TextsReadable(s, 3, dec)
    ensures |a| < U32_LIMIT && |b| < U32_LIMIT && |c| < U32_LIMIT
    ensures s == EncodeTexts([a, b, c]) + rest
  {
    var r1, r2: Bytes;
    a, r1 := Text32Inverse(s, dec);
    assert TextsReadable(r1, 2, dec);
    b, r2 := Text32Inverse(r1, dec);
    assert TextsReadable(r2, 1, dec);
    c, rest := Text32Inverse(r2, dec);
    ThreeTexts(a, b, c);
  }

  /**
   * Cutting an extra-info payload short leaves no packet, with one
   * exception: cut exactly where its logo begins, it reads as a payload
   * without a logo.
   */
  lemma ExtraInfoTruncated(w: ExtraInfoWire, k: nat, dec: Transcoder)
    requires w.Valid() && k < |EncodeExtraInfo(w)|
    ensures var texts := EncodeTexts([w.discord, w.light, w.dark]);
            ParseExtraInfo(EncodeExtraInfo(w)[..k], dec)
            == if k == |texts| then Some(ExtraInfoOf(w.(logo := None), dec)) else None
  {
    var texts := EncodeTexts([w.discord, w.light, w.dark]);
    var e := EncodeExtraInfo(w);
    var p := e[..k];
    if k < |texts| {
      assert p == texts[..k];
      TextsPrefix([w.discord, w.light, w.dark], k, dec);
    } else {
      var logo := EncodeText32(w.logo.value);
      assert e == texts + logo;
      assert p == texts + logo[..k - |texts|];
      ExtraInfoTexts(w.discord, w.light, w.dark, logo[..k - |texts|], dec);
      if k > |texts| {
        Text32Prefix(w.logo.value, [], k - |texts|, dec);
        assert (logo + [])[..k - |texts|] == logo[..k - |texts|];
      }
    }
  }
}
