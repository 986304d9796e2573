/**
 * The four response decoders of the query client. Each reads its payload
 * through a `Cursor`, field by field, and gives up (`None`, a panic in the
 * original) at the first read that runs past the end. Each is proved to
 * compute exactly the reference reading of `Packets`.
 */
module Decoders {
  import opened Wrappers
  import opened Bytes
  import opened Packets
  import opened Cursors

  /** A string with a u32 length prefix, read from the cursor. */
  method ReadText32(c: Cursor, dec: Transcoder) returns (r: Option<string>)
    requires c.Valid()
    modifies c
    ensures c.Valid()
    ensures match TakeText32(old(c.Rest()), dec)
            case None => r.None?
            case Some(t) => r == Some(t.value) && c.Rest() == t.rest
  {
    var len := c.ReadU32Le();
    if len.None? {
      return None;
    }
    var raw := c.ReadExact(len.value);
    if raw.None? {
      return None;
    }
    r := Some(dec(raw.value));
  }

  /** A string with a one-byte length prefix, read from the cursor. */
  method ReadText8(c: Cursor, dec: Transcoder) returns (r: Option<string>)
    requires c.Valid()
    modifies c
    ensures c.Valid()
    ensures match TakeText8(old(c.Rest()), dec)
            case None => r.None?
            case Some(t) => r == Some(t.value) && c.Rest() == t.rest
  {
    var len := c.ReadU8();
    if len.None? {
      return None;
    }
    var raw := c.ReadExact(len.value);
    if raw.None? {
      return None;
    }
    r := Some(dec(raw.value));
  }

  /** One player entry: name length, name, then the i32 score. */
  method ReadPlayer(c: Cursor, dec: Transcoder) returns (r: Option<Player>)
    requires c.Valid()
    modifies c
    ensures c.Valid()
    ensures r.None? <==> TakePlayer(old(c.Rest()), dec).None?
    ensures r.Some? ==> TakePlayer(old(c.Rest()), dec) == Some(Taken(r.value, c.Rest()))
  {
    var name := ReadText8(c, dec);
    if name.None? {
      return None;
    }
    var score := c.ReadI32Le();
    if score.None? {
      return None;
    }
    r := Some(Player(name.value, score.value));
  }

  /** `build_info_packet`. */
  method BuildInfoPacket(payload: Bytes, dec: Transcoder) returns (r: Option<InfoPacket>)
    ensures r == ParseInfo(payload, dec)
  {
    var c := new Cursor(payload);
    var password := c.ReadU8();
    if password.None? {
      return None;
    }
    var players := c.ReadU16Le();
    if players.None? {
      return None;
    }
    var maxPlayers := c.ReadU16Le();
    if maxPlayers.None? {
      return None;
    }
    var hostname := ReadText32(c, dec);
    if hostname.None? {
      return None;
    }
    var gamemode := ReadText32(c, dec);
    if gamemode.None? {
      return None;
    }
    var language := ReadText32(c, dec);
    if language.None? {
      return None;
    }
    r := Some(InfoPacket(password.value != 0, players.value, maxPlayers.value,
                         hostname.value, gamemode.value, language.value));
  }

  /** `build_extra_info_packet`: the logo URL is read only while bytes remain. */
  method BuildExtraInfoPacket(payload: Bytes, dec: Transcoder) returns (r: Option<ExtraInfoPacket>)
    ensures r == ParseExtraInfo(payload, dec)
  {
    var c := new Cursor(payload);
    var discord := ReadText32(c, dec);
    if discord.None? {
      return None;
    }
    var light := ReadText32(c, dec);
    if light.None? {
      return None;
    }
    var dark := ReadText32(c, dec);
    if dark.None? {
      return None;
    }
    var logo := "";
    if c.Remaining() > 0 {
      var read := ReadText32(c, dec);
      if read.None? {
        return None;
      }
      logo := read.value;
    }
    r := Some(ExtraInfoPacket(discord.value, light.value, dark.value, logo));
  }

  /**
   * `build_players_packet`: a vector of `count` default players is filled
   * in place, entry by entry.
   */
  method BuildPlayersPacket(payload: Bytes, dec: Transcoder) returns (r: Option<seq<Player>>)
    ensures r == ParsePlayers(payload, dec)
  {
    var c := new Cursor(payload);
    var count := c.ReadU16Le();
    if count.None? {
      return None;
    }
    var players := new Player[count.value](_ => Player("", 0));
    ghost var entries := c.Rest();
    var ok := FillPlayers(c, players, dec);
    if !ok {
      return None;
    }
    ghost var filled := players[..];
    assert TakePlayers(entries, count.value, dec) == Some(Taken(filled, c.Rest()));
    r := Some(players[..]);
  }

  /** The loop of `build_players_packet`: overwrites each slot with the next entry read. */
  method FillPlayers(c: Cursor, players: array<Player>, dec: Transcoder) returns (ok: bool)
    requires c.Valid()
    modifies c, players
    ensures c.Valid()
    ensures ok <==> TakePlayers(old(c.Rest()), players.Length, dec).Some?
    ensures ok ==> TakePlayers(old(c.Rest()), players.Length, dec) == Some(Taken(players[..], c.Rest()))
  {
    ghost var entries := c.Rest();
    for i := 0 to players.Length
      invariant c.Valid()
      invariant TakePlayers(entries, i, dec) == Some(Taken(players[..i], c.Rest()))
    {
      var read := ReadPlayerInto(c, players, i, entries, dec);
      if !read {
        TakePlayersStuck(entries, i + 1, players.Length, dec);
        return false;
      }
    }
    assert players[..players.Length] == players[..];
    return true;
  }

  /**
   * One iteration of that loop: the entry's name and score are written
   * through a reference to slot `i`; the slots before it keep the entries
   * already read from `entries`.
   */
  method ReadPlayerInto(c: Cursor, players: array<Player>, i: nat, ghost entries: Bytes, dec: Transcoder)
    returns (ok: bool)
    requires c.Valid() && i < players.Length
    requires TakePlayers(entries, i, dec) == Some(Taken(players[..i], c.Rest()))
    modifies c, players
    ensures c.Valid()
    ensures ok <==> TakePlayers(entries, i + 1, dec).Some?
    ensures ok ==> TakePlayers(entries, i + 1, dec) == Some(Taken(players[..i + 1], c.Rest()))
  {
    ghost var done := players[..i];
    ghost var at := c.Rest();
    var player := ReadPlayer(c, dec);
    if player.None? {
      return false;
    }
    ghost var rest := c.Rest();
    TakePlayersStep(entries, i + 1, Taken(done, at), Taken(player.value, rest), dec);
    players[i] := player.value;
    assert players[..i + 1] == done + [player.value];
    return true;
  }

  /** `build_rules_packet`: each rule is pushed as the pair [name, value]. */
  method BuildRulesPacket(payload: Bytes, dec: Transcoder) returns (r: Option<seq<Rule>>)
    ensures r == ParseRules(payload, dec)
  {
    var c := new Cursor(payload);
    var count := c.ReadU16Le();
    if count.None? {
      return None;
    }
    var entries := c.Rest();
    var rules: seq<Rule> := [];
    for i := 0 to count.value
      invariant c.Valid()
      invariant TakeRules(entries, i, dec) == Some(Taken(rules, c.Rest()))
    {
      var name := ReadText8(c, dec);
      if name.None? {
        TakeRulesStuck(entries, i + 1, count.value, dec);
        return None;
      }
      var value := ReadText8(c, dec);
      if value.None? {
        TakeRulesStuck(entries, i + 1, count.value, dec);
        return None;
      }
      rules := rules + [[name.value, value.value]];
    }
    r := Some(rules);
  }

  /** Once the first `m` entries cannot be read, no larger count can be read either. */
  lemma {:induction false} TakePlayersStuck(s: Bytes, m: nat, n: nat, dec: Transcoder)
    requires m <= n
    requires TakePlayers(s, m, dec).None?
    ensures TakePlayers(s, n, dec).None?
    decreases n
  {
    if m < n {
      TakePlayersStuck(s, m, n - 1, dec);
      PlayersNone(s, n, dec);
    }
  }

  lemma {:induction false} TakeRulesStuck(s: Bytes, m: nat, n: nat, dec: Transcoder)
    requires m <= n
    requires TakeRules(s, m, dec).None?
    ensures TakeRules(s, n, dec).None?
    decreases n
  {
    if m < n {
      TakeRulesStuck(s, m, n - 1, dec);
      RulesNone(s, n, dec);
    }
  }

  lemma RulesNone(s: Bytes, n: nat, dec: Transcoder)
    requires 0 < n && TakeRules(s, n - 1, dec).None?
    ensures TakeRules(s, n, dec).None?
  {
  }
  lemma PlayersNone(s: Bytes, n: nat, dec: Transcoder)
    requires 0 < n && TakePlayers(s, n - 1, dec).None?
    ensures TakePlayers(s, n, dec).None?
  {
  }
}
