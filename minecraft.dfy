/**
 * The Minecraft lookup of extensions/lookup/minecraft.py: rendering a server's
 * status (its styled description tokens, player counts and player sample)
 * as Markdown text, and the watch lists that decide which status messages to
 * refresh. The status service is a network call; its answers are inputs.
 */
module Minecraft {
  import opened Wrappers
  import opened KeyValue
  import opened Strings

  /** One description token of the status answer; absent flags are false. */
  datatype Token = Token(text: string, bold: bool, italic: bool)

  /** The status service's answer: its HTTP code and the parts of the JSON body the cog reads. */
  datatype Status = Status(code: int, description: seq<Token>, online: int, max: int, sample: Option<seq<string>>)

  /** What _get_state returns: the rendered description, (online, max) and the player names. */
  datatype State = State(description: string, online: int, max: int, sample: seq<string>)

  datatype Error = CouldNotConnect

  /** The zero-width space put around styled text so that Markdown renders it. */
  const Zwsp: char := '\U{200B}'

  /** The Markdown emphasis a token gets: *** for bold italic, ** for bold, * for italic. */
  function Marker(t: Token): (m: string)
    ensures |m| == (if t.bold then 2 else 0) + (if t.italic then 1 else 0)
    ensures forall i :: 0 <= i < |m| ==> m[i] == '*'
  {
    if t.bold && t.italic then "***" else if t.bold then "**" else if t.italic then "*" else ""
  }

  /** One token as Markdown. */
  function Render(t: Token): (r: string)
    ensures !t.bold && !t.italic ==> r == t.text
  {
    if t.bold || t.italic then [Zwsp] + Marker(t) + t.text + Marker(t) + [Zwsp] else t.text
  }

  /**
   * A styled token is its text wrapped in the zero-width space and its
   * emphasis on both sides, so cutting them off gives the text back.
   */
  lemma RenderUnwraps(t: Token)
    requires t.bold || t.italic
    ensures var r, k := Render(t), |Marker(t)| + 1;
      |r| == |t.text| + 2 * k && r[k..|r| - k] == t.text
      && r[0] == r[|r| - 1] == Zwsp && r[1..k] == r[|r| - k..|r| - 1] == Marker(t)
  {
    var r, m := Render(t), Marker(t);
    assert r == [Zwsp] + m + t.text + m + [Zwsp];
  }

  /** "".join of the rendered tokens. */
  function Description(tokens: seq<Token>): string
  {
    if tokens == [] then "" else Render(tokens[0]) + Description(tokens[1..])
  }

  /** Rendering distributes over concatenation of the token lists. */
  lemma {:induction false} DescriptionAppend(a: seq<Token>, b: seq<Token>)
    ensures Description(a + b) == Description(a) + Description(b)
    decreases |a|
  {
    if a == [] {
      assert a + b == b;
    } else {
      assert (a + b)[1..] == a[1..] + b;
      DescriptionAppend(a[1..], b);
    }
  }

  /** The text of every token appears in order; unstyled tokens contribute exactly their text. */
  lemma {:induction false} PlainDescription(tokens: seq<Token>)
    requires forall i :: 0 <= i < |tokens| ==> !tokens[i].bold && !tokens[i].italic
    ensures Description(tokens) == Texts(tokens)
    decreases |tokens|
  {
    if tokens != [] {
      PlainDescription(tokens[1..]);
    }
  }

  function Texts(tokens: seq<Token>): string
  {
    if tokens == [] then "" else tokens[0].text + Texts(tokens[1..])
  }

  /**
   * _get_state: a code other than 200 is an error; otherwise the rendered
   * description, the counts and the sample, an absent or empty sample read
   * as no players.
   */
  function GetState(s: Status): (r: Result<State, Error>)
    ensures r.Failure? <==> s.code != 200
    ensures r.Success? ==>
      r.value.description == Description(s.description)
      && r.value.online == s.online && r.value.max == s.max
      && r.value.sample == (if s.sample.Some? then s.sample.value else [])
  {
    if s.code != 200 then Failure(CouldNotConnect)
    else Success(State(Description(s.description), s.online, s.max,
                       match s.sample case Some(names) => names case None => []))
  }

  /** The bullet line of one sampled player. */
  function Bullets(names: seq<string>): (lines: seq<string>)
    ensures |lines| == |names|
    ensures forall i :: 0 <= i < |names| ==> lines[i] == "• " + names[i]
  {
    if names == [] then [] else ["• " + names[0]] + Bullets(names[1..])
  }

  function PlayerLine(s: State): string
  {
    "Players: **" + IntToString(s.online) + "**/" + IntToString(s.max)
  }

  /** get_embed's text. */
  function EmbedText(s: State): string
  {
    var online := if s.sample != [] then "\n" + Join(Bullets(s.sample), "\n") else "";
    "**Description**\n" + s.description + "\n" + PlayerLine(s) + online
  }

  /**
   * The embed text is the heading, the description, the player counts and
   * one bullet per sampled player, one per line: when the description and
   * the names hold no line break, splitting at line breaks gives exactly
   * those lines.
   */
  lemma EmbedLines(s: State)
    requires '\n' !in s.description
    requires forall i :: 0 <= i < |s.sample| ==> '\n' !in s.sample[i]
    ensures Split(EmbedText(s), '\n') == ["**Description**", s.description, PlayerLine(s)] + Bullets(s.sample)
  {
    var bullets := Bullets(s.sample);
    var lines := ["**Description**", s.description, PlayerLine(s)] + bullets;
    EmbedJoin(s);
    forall i | 0 <= i < |lines|
      ensures '\n' !in lines[i]
    {
      if i == 2 {
        PlayerLineOneLine(s);
      } else if i >= 3 {
        assert lines[i] == bullets[i - 3];
      }
    }
    SplitJoin(lines, '\n');
  }

  lemma PlayerLineOneLine(s: State)
    ensures '\n' !in PlayerLine(s)
  {
    assert '\n' !in IntToString(s.online) && '\n' !in IntToString(s.max);
  }

  /** The embed text is its lines joined by line breaks. */
  lemma EmbedJoin(s: State)
    ensures Join(["**Description**", s.description, PlayerLine(s)] + Bullets(s.sample), "\n") == EmbedText(s)
  {
    var bullets := Bullets(s.sample);
    var lines := ["**Description**", s.description, PlayerLine(s)] + bullets;
    var online := if s.sample != [] then "\n" + Join(bullets, "\n") else "";
    assert lines[1..][1..] == [PlayerLine(s)] + bullets;
    assert ([PlayerLine(s)] + bullets)[1..] == bullets;
    assert Join([PlayerLine(s)] + bullets, "\n") == PlayerLine(s) + online;
    assert Join(lines, "\n") == "**Description**" + "\n" + (s.description + "\n" + (PlayerLine(s) + online));
  }

  /**
   * What mc:hash:{ip} stores: json.dumps of a state, which is determined by
   * the state, so the model stores the state itself; "disconnected" is the
   * other value get_hash can return.
   */
  datatype Hash = Disconnected | Snapshot(state: State)

  /**
   * get_hash: it catches only user-input errors, which the connection
   * error of _get_state is not, so a failed lookup is an error and never
   * "disconnected".
   */
  function GetHash(s: Status): (r: Result<Hash, Error>)
    ensures r.Success? <==> s.code == 200
    ensures r.Success? ==> r.value != Disconnected
  {
    match GetState(s)
    case Failure(e) => Failure(e)
    case Success(st) => Success(Snapshot(st))
  }

  /** Overriding one more key by its fetched value. */
  lemma OverrideStep(before: map<string, Hash>, fetched: map<string, Hash>, done: set<string>, ip: string)
    requires done <= fetched.Keys && ip in fetched && ip !in done
    ensures (before + map k | k in done :: fetched[k])[ip := fetched[ip]]
         == before + map k | k in done + {ip} :: fetched[k]
  {
  }

  /** A watched status message: (channel id, message id), stored as "channel:message". */
  type Post = (int, int)

  class Watcher {
    var ips: set<string>                 // mc:watching:ips
    var watchers: map<string, set<Post>> // mc:watching:ip:{ip}
    var messages: map<Post, string>      // mc:watching:message:{channel}:{message}
    var channels: map<Post, string>      // mc:watching:channel:{channel}:{message}
    var hashes: map<string, Hash>        // mc:hash:{ip}

    /** The ip set holds exactly the ips with at least one watching message. */
    ghost predicate Consistent()
      reads this
    {
      NoEmptySets(watchers) && forall ip :: ip in ips <==> ip in watchers
    }

    constructor ()
      ensures Consistent()
      ensures ips == {} && watchers == map[] && messages == map[] && channels == map[] && hashes == map[]
    {
      ips, watchers, messages, channels, hashes := {}, map[], map[], map[], map[];
    }

    /** mcwatch: record the posted status message under its ip. */
    method Watch(ip: string, post: Post)
      modifies this
      ensures ips == old(ips) + {ip}
      ensures watchers == SAdd(old(watchers), ip, post)
      ensures messages == old(messages)[post := ip]
      ensures channels == old(channels) && hashes == old(hashes)
      ensures old(Consistent()) ==> Consistent()
    {
      ips := ips + {ip};
      watchers := SAdd(watchers, ip, post);
      messages := messages[post := ip];
    }

    /**
     * on_raw_message_delete: for a watched message, forget it under its ip
     * and drop the ip once nobody watches it. The key deleted is the
     * channel key, which nothing writes; the message key stays.
     */
    method MessageDeleted(post: Post)
      modifies this
      ensures post !in old(messages) ==>
        ips == old(ips) && watchers == old(watchers) && channels == old(channels)
      ensures post in old(messages) ==>
        var ip := old(messages)[post];
        channels == old(channels) - {post}
        && watchers == SRem(old(watchers), ip, post)
        && ips == (if Members(watchers, ip) == {} then old(ips) - {ip} else old(ips))
      ensures messages == old(messages) && hashes == old(hashes)
      ensures old(Consistent()) ==> Consistent()
    {
      if post !in messages {
        return;
      }
      var ip := messages[post];
      channels := channels - {post};
      watchers := SRem(watchers, ip, post);
      if Members(watchers, ip) == {} {
        ips := ips - {ip};
      }
    }

    /**
     * One ip of watch_task: store the fetched hash when it differs from the
     * stored one and report the messages to refresh (none when unchanged).
     */
    method Refresh(ip: string, fetched: Hash) returns (edit: set<Post>)
      modifies this`hashes
      ensures hashes == old(hashes)[ip := fetched]
      ensures edit == if ip in old(hashes) && old(hashes)[ip] == fetched then {} else Members(watchers, ip)
    {
      edit := {};
      if ip !in hashes || hashes[ip] != fetched {
        hashes := hashes[ip := fetched];
        edit := Members(watchers, ip);
      }
    }

    /** The messages watch_task refreshes: those of every watched ip whose hash changed. */
    ghost function Stale(before: map<string, Hash>, fetched: map<string, Hash>, done: set<string>): set<Post>
      requires done <= fetched.Keys
      reads this
    {
      set ip, p | ip in done && p in Members(watchers, ip) && (ip !in before || before[ip] != fetched[ip]) :: p
    }

    /** Handling one more ip adds its messages when its hash changed. */
    lemma StaleStep(before: map<string, Hash>, fetched: map<string, Hash>, done: set<string>, ip: string)
      requires done <= fetched.Keys && ip in fetched
      ensures Stale(before, fetched, done + {ip})
           == Stale(before, fetched, done)
              + (if ip !in before || before[ip] != fetched[ip] then Members(watchers, ip) else {})
    {
    }

    /**
     * watch_task: for every watched ip, given its freshly fetched hash,
     * refresh as above.
     */
    method WatchTask(fetched: map<string, Hash>) returns (edit: set<Post>)
      requires ips <= fetched.Keys
      modifies this`hashes
      ensures hashes == old(hashes) + map ip | ip in ips :: fetched[ip]
      ensures edit == Stale(old(hashes), fetched, ips)
    {
      ghost var before := hashes;
      var remaining := ips;
      edit := {};
      while remaining != {}
        invariant remaining <= ips
        invariant hashes == before + map ip | ip in ips - remaining :: fetched[ip]
        invariant edit == Stale(before, fetched, ips - remaining)
        decreases remaining
      {
        ghost var some := NonEmptyHasMember(remaining);
        var ip :| ip in remaining;
        ghost var done := ips - remaining;
        assert ip !in done;
        OverrideStep(before, fetched, done, ip);
        assert (ip in hashes) == (ip in before) && (ip in hashes ==> hashes[ip] == before[ip]);
        var e := Refresh(ip, fetched[ip]);
        StaleStep(before, fetched, done, ip);
        edit := edit + e;
        remaining := remaining - {ip};
        assert ips - remaining == done + {ip};
      }
    }
  }
}
