/** The flat part of one payload: text content with structured mentions, then attachments. */
module MessageBody {
  import opened Values
  import opened Sequences
  import opened Domain

  // ----- scalar readers -----

  function AsString(lib: Library, value: Json): Option<string> {
    match value
    case Str(text) => Some(text)
    case Int(number) => Some(lib.textOfInt(number))
    case Float(digits) => Some(digits)
    case _ => None
  }

  function AsInt(lib: Library, value: Json): Option<int> {
    match value
    case Int(number) => Some(number)
    case Str(text) => lib.intOfText(text)
    case _ => None
  }

  // ----- mention tokens -----

  /** One occurrence `content[start..stop]` of `<@target>`, where target holds no '>'. */
  datatype Match = Match(start: nat, stop: nat) {
    ghost predicate Within(content: string) {
      start + 3 < stop <= |content|
    }
    function Target(content: string): string
      requires Within(content)
    {
      content[start + 2..stop - 1]
    }
    function Token(content: string): string
      requires Within(content)
    {
      content[start..stop]
    }
  }

  /** The first '>' at or after `from`, or the length of the text. */
  function ClosingAt(content: string, from: nat): (closing: nat)
    requires from <= |content|
    ensures from <= closing <= |content|
    ensures closing < |content| ==> content[closing] == '>'
    ensures '>' !in content[from..closing]
    decreases |content| - from
  {
    if from == |content| || content[from] == '>' then from else ClosingAt(content, from + 1)
  }

  /** Whether a token starts exactly here. */
  predicate TokenAt(content: string, at: nat) {
    && at + 3 < |content|
    && content[at] == '<' && content[at + 1] == '@' && content[at + 2] != '>'
    && ClosingAt(content, at + 2) < |content|
  }

  /** `finditer`: every token from `from` on, leftmost first, without overlap. */
  function Tokens(content: string, from: nat): (matches: seq<Match>)
    requires from <= |content|
    ensures forall m | m in matches :: m.Within(content)
    ensures forall m | m in matches :: from <= m.start
    ensures forall i, j | 0 <= i < j < |matches| :: matches[i].stop <= matches[j].start
    decreases |content| - from
  {
    if from == |content| then []
    else if TokenAt(content, from) then
      var stop := ClosingAt(content, from + 2) + 1;
      var rest := Tokens(content, stop);
      [Match(from, stop)] + rest
    else
      Tokens(content, from + 1)
  }

  /** Written out: `<@`, one or more characters other than '>', and '>'. */
  ghost predicate IsToken(content: string, m: Match) {
    && m.Within(content) && m.Token(content) == "<@" + m.Target(content) + ">"
    && m.Target(content) != "" && '>' !in m.Target(content)
  }

  /** A token could begin here: `<@`, then something other than '>', then a '>' somewhere. */
  ghost predicate Opens(content: string, at: nat) {
    && at + 2 < |content| && content[at..at + 2] == "<@" && content[at + 2] != '>'
    && '>' in content[at + 2..]
  }

  /** The tokens of a text from `from` on: in order, without overlap, and every place where one could
      begin belongs to one. */
  ghost predicate AreTheTokens(content: string, from: nat, tokens: seq<Match>) {
    && (forall m | m in tokens :: IsToken(content, m) && from <= m.start)
    && (forall i, j | 0 <= i < j < |tokens| :: tokens[i].stop <= tokens[j].start)
    && (forall at: nat | from <= at && Opens(content, at) :: exists m | m in tokens :: m.start <= at < m.stop)
  }

  lemma TokenOpens(content: string, at: nat)
    ensures TokenAt(content, at) <==> Opens(content, at)
  {
    if at + 3 < |content| {
      var closing := ClosingAt(content, at + 2);
      assert content[at + 2..] == content[at + 2..closing] + content[closing..];
      assert content[at..at + 2] == [content[at], content[at + 1]];
    }
  }

  lemma TokenReads(content: string, at: nat)
    requires TokenAt(content, at)
    ensures at + 2 <= |content| && ClosingAt(content, at + 2) + 1 <= |content|
    ensures IsToken(content, Match(at, ClosingAt(content, at + 2) + 1))
  {
    var closing := ClosingAt(content, at + 2);
    assert content[at + 2..closing] != "" by {
      assert closing > at + 2;
    }
    assert content[at..closing + 1] == content[at..at + 2] + content[at + 2..closing] + [content[closing]];
  }

  /** `finditer` finds exactly the tokens. */
  lemma {:induction false} TokensAreTheTokens(content: string, from: nat)
    requires from <= |content|
    ensures AreTheTokens(content, from, Tokens(content, from))
    decreases |content| - from
  {
    hide Opens, IsToken, TokenAt, AreTheTokens;
    if from == |content| {
      NoTokens(content);
    } else {
      TokenOpens(content, from);
      if TokenAt(content, from) {
        TokenReads(content, from);
        var stop := ClosingAt(content, from + 2) + 1;
        TokensAreTheTokens(content, stop);
        OneMoreToken(content, Match(from, stop), Tokens(content, stop));
      } else {
        TokensAreTheTokens(content, from + 1);
        NoTokenHere(content, from, Tokens(content, from + 1));
      }
    }
  }

  lemma NoTokens(content: string)
    ensures AreTheTokens(content, |content|, [])
  {
  }

  lemma OneMoreToken(content: string, m: Match, rest: seq<Match>)
    requires IsToken(content, m) && AreTheTokens(content, m.stop, rest)
    ensures AreTheTokens(content, m.start, [m] + rest)
  {
    hide Opens, IsToken;
    var all := [m] + rest;
    TokenIsLong(content, m);
    MemberOfCons(all);
    assert all[0] == m && all[1..] == rest;
    forall at: nat | m.start <= at && Opens(content, at)
      ensures exists k | k in all :: k.start <= at < k.stop
    {
      if at >= m.stop {
        var k :| k in rest && k.start <= at < k.stop;
        assert k in all;
      }
    }
  }

  lemma NoTokenHere(content: string, from: nat, rest: seq<Match>)
    requires !Opens(content, from) && AreTheTokens(content, from + 1, rest)
    ensures AreTheTokens(content, from, rest)
  {
    hide Opens, IsToken;
  }

  /** The description leaves no choice. */
  lemma {:induction false} TokensAreUnique(content: string, from: nat, a: seq<Match>, b: seq<Match>)
    requires AreTheTokens(content, from, a) && AreTheTokens(content, from, b)
    ensures a == b
    decreases |a|
  {
    hide Opens, IsToken;
    if a != [] && b != [] {
      FirstToken(content, from, a, b);
      FirstToken(content, from, b, a);
      SameStop(content, a[0], b[0]);
      LaterTokens(content, from, a);
      LaterTokens(content, from, b);
      TokensAreUnique(content, a[0].stop, a[1..], b[1..]);
      assert a == [a[0]] + a[1..] && b == [b[0]] + b[1..];
    } else if a != [] {
      TokenIsOpen(content, a[0]);
      assert false;
    } else if b != [] {
      TokenIsOpen(content, b[0]);
      assert false;
    }
  }

  lemma TokenIsOpen(content: string, m: Match)
    requires IsToken(content, m)
    ensures Opens(content, m.start)
  {
    assert m.Token(content)[0] == '<' && m.Token(content)[1] == '@';
    assert m.Target(content)[0] == content[m.start + 2];
    assert m.Token(content)[|m.Token(content)| - 1] == content[m.stop - 1];
    assert content[m.start + 2..][m.stop - m.start - 3] == content[m.stop - 1];
  }

  lemma FirstToken(content: string, from: nat, a: seq<Match>, b: seq<Match>)
    requires AreTheTokens(content, from, a) && AreTheTokens(content, from, b) && a != [] && b != []
    ensures a[0].start >= b[0].start
  {
    hide Opens, IsToken;
    TokenIsOpen(content, a[0]);
    var m :| m in b && m.start <= a[0].start < m.stop;
    var k :| 0 <= k < |b| && b[k] == m;
    if k > 0 {
      assert IsToken(content, b[0]);
      TokenIsLong(content, b[0]);
    }
  }

  lemma TokenIsLong(content: string, m: Match)
    requires IsToken(content, m)
    ensures m.start < m.stop <= |content|
  {
  }

  lemma SameStop(content: string, a: Match, b: Match)
    requires IsToken(content, a) && IsToken(content, b) && a.start == b.start
    ensures a.stop == b.stop
  {
    FirstClosing(content, a);
    FirstClosing(content, b);
  }

  lemma FirstClosing(content: string, m: Match)
    requires IsToken(content, m)
    ensures content[m.stop - 1] == '>' && forall at | m.start + 2 <= at < m.stop - 1 :: content[at] != '>'
  {
    assert m.Token(content)[m.stop - 1 - m.start] == content[m.stop - 1];
    forall at | m.start + 2 <= at < m.stop - 1
      ensures content[at] != '>'
    {
      assert m.Target(content)[at - m.start - 2] == content[at];
    }
  }

  lemma LaterTokens(content: string, from: nat, tokens: seq<Match>)
    requires AreTheTokens(content, from, tokens) && tokens != []
    ensures AreTheTokens(content, tokens[0].stop, tokens[1..])
  {
    hide Opens, IsToken;
    assert IsToken(content, tokens[0]);
    TokenIsLong(content, tokens[0]);
    MemberOfCons(tokens);
    forall at: nat | tokens[0].stop <= at && Opens(content, at)
      ensures exists m | m in tokens[1..] :: m.start <= at < m.stop
    {
      var m :| m in tokens && m.start <= at < m.stop;
    }
  }

  // ----- the mention table -----

  /** One mention object, under its id. */
  datatype Entry = Entry(id: string, fields: map<string, Json>)

  /** Assigning to an insertion-ordered dictionary: an old key keeps its place. */
  function Assign(table: seq<Entry>, entry: Entry): seq<Entry> {
    if table == [] then [entry]
    else if table[0].id == entry.id then [entry] + table[1..]
    else [table[0]] + Assign(table[1..], entry)
  }

  function Lookup(table: seq<Entry>, id: string): Option<map<string, Json>> {
    if table == [] then None
    else if table[0].id == id then Some(table[0].fields)
    else Lookup(table[1..], id)
  }

  function Ids(table: seq<Entry>): seq<string> {
    if table == [] then [] else [table[0].id] + Ids(table[1..])
  }

  /** The mentions in the list that are objects with an id, keyed by that id. */
  function TableOf(lib: Library, mentions: seq<Json>): seq<Entry> {
    if mentions == [] then []
    else WithMention(lib, TableOf(lib, mentions[..|mentions| - 1]), mentions[|mentions| - 1])
  }

  function WithMention(lib: Library, table: seq<Entry>, mention: Json): seq<Entry> {
    if !mention.Obj? then table
    else
      match AsString(lib, Get(mention, "id"))
      case None => table
      case Some(id) => Assign(table, Entry(id, mention.fields))
  }

  function MentionTable(lib: Library, payload: Json): seq<Entry>
    requires payload.Obj?
  {
    var mentions := Get(payload, "mentions");
    if mentions.List? then TableOf(lib, mentions.items) else []
  }

  lemma DistinctCons<T>(head: T, tail: seq<T>)
    ensures NoDuplicates([head] + tail) <==> head !in tail && NoDuplicates(tail)
  {
    var all := [head] + tail;
    assert forall i | 0 <= i < |tail| :: tail[i] == all[i + 1];
    assert forall i | 0 < i < |all| :: all[i] == tail[i - 1];
    if NoDuplicates(all) {
      forall j | 0 <= j < |tail|
        ensures tail[j] != head
      {
        assert all[0] != all[j + 1];
      }
      forall i, j | 0 <= i < j < |tail|
        ensures tail[i] != tail[j]
      {
        assert all[i + 1] != all[j + 1];
      }
    }
  }

  lemma {:induction false} AssignKeepsIds(table: seq<Entry>, entry: Entry)
    ensures Ids(Assign(table, entry)) == if entry.id in Ids(table) then Ids(table) else Ids(table) + [entry.id]
  {
    if table == [] {
      assert Ids([entry]) == [entry.id];
    } else if table[0].id != entry.id {
      AssignKeepsIds(table[1..], entry);
    }
  }

  lemma {:induction false} AssignReplaces(table: seq<Entry>, entry: Entry)
    requires NoDuplicates(Ids(table))
    ensures forall other :: other in Assign(table, entry) <==> other == entry || (other in table && other.id != entry.id)
  {
    if table != [] {
      MemberOfCons(table);
      DistinctCons(table[0].id, Ids(table[1..]));
      IdsAreThere(table[1..]);
      if table[0].id != entry.id {
        AssignReplaces(table[1..], entry);
        MemberOfCons(Assign(table, entry));
      }
    }
  }

  lemma {:induction false} IdsAreThere(table: seq<Entry>)
    ensures forall entry | entry in table :: entry.id in Ids(table)
  {
    if table != [] {
      MemberOfCons(table);
      IdsAreThere(table[1..]);
    }
  }

  /** The mention is an object with this id. */
  predicate Names(lib: Library, mention: Json, id: string) {
    mention.Obj? && AsString(lib, Get(mention, "id")) == Some(id)
  }

  /** The ids of the mentions that have one, repeated as they are. */
  function MentionedIds(lib: Library, mentions: seq<Json>): seq<string> {
    if mentions == [] then []
    else
      var last := mentions[|mentions| - 1];
      MentionedIds(lib, mentions[..|mentions| - 1])
      + if last.Obj? && AsString(lib, Get(last, "id")).Some? then [AsString(lib, Get(last, "id")).value] else []
  }

  /** The last mention of the entry's id has the entry's fields. */
  ghost predicate IsLastMention(lib: Library, mentions: seq<Json>, entry: Entry) {
    exists i | 0 <= i < |mentions| ::
      && Names(lib, mentions[i], entry.id) && mentions[i].fields == entry.fields
      && forall j | i < j < |mentions| :: !Names(lib, mentions[j], entry.id)
  }

  lemma LastMentionOfMore(lib: Library, mentions: seq<Json>, entry: Entry)
    requires mentions != []
    ensures var last := mentions[|mentions| - 1];
            IsLastMention(lib, mentions, entry)
            <==> if Names(lib, last, entry.id) then last == Obj(entry.fields)
                 else IsLastMention(lib, mentions[..|mentions| - 1], entry)
  {
    hide AsString;
    var last, earlier := mentions[|mentions| - 1], mentions[..|mentions| - 1];
    if !Names(lib, last, entry.id) && IsLastMention(lib, earlier, entry) {
      var i :| 0 <= i < |earlier| && Names(lib, earlier[i], entry.id) && earlier[i].fields == entry.fields
               && forall j | i < j < |earlier| :: !Names(lib, earlier[j], entry.id);
      assert mentions[i] == earlier[i];
      assert forall j | i < j < |mentions| :: j < |earlier| ==> mentions[j] == earlier[j];
    }
  }

  /** The mention table: each id once, in the order of its first mention, with the fields of its last. */
  lemma {:induction false} TableIsTheMentions(lib: Library, mentions: seq<Json>)
    ensures NoDuplicates(Ids(TableOf(lib, mentions)))
    ensures Ids(TableOf(lib, mentions)) == Distinct(MentionedIds(lib, mentions))
    ensures forall entry :: entry in TableOf(lib, mentions) <==> IsLastMention(lib, mentions, entry)
  {
    hide AsString, IsLastMention, Names, MentionedIds, Distinct, NoDuplicates, WithMention;
    if mentions == [] {
      NoMentions(lib);
    } else {
      var earlier, mention := mentions[..|mentions| - 1], mentions[|mentions| - 1];
      TableIsTheMentions(lib, earlier);
      MentionIsAdded(lib, TableOf(lib, earlier), mention);
      MentionedIdsMore(lib, mentions);
      DistinctIsDistinct(MentionedIds(lib, mentions));
      if id :| Names(lib, mention, id) {
        assert Ids(TableOf(lib, mentions)) == Distinct(MentionedIds(lib, mentions));
      }
      forall entry
        ensures IsLastMention(lib, mentions, entry)
                <==> if Names(lib, mention, entry.id) then mention == Obj(entry.fields)
                     else IsLastMention(lib, earlier, entry)
      {
        LastMentionOfMore(lib, mentions, entry);
      }
    }
  }

  /** What one mention does to the table. */
  lemma MentionIsAdded(lib: Library, table: seq<Entry>, mention: Json)
    requires NoDuplicates(Ids(table))
    ensures var after := WithMention(lib, table, mention);
            && (forall entry :: entry in after
                  <==> if Names(lib, mention, entry.id) then mention == Obj(entry.fields) else entry in table)
            && (forall id | Names(lib, mention, id) ::
                  Ids(after) == if id in Ids(table) then Ids(table) else Ids(table) + [id])
            && ((forall id :: !Names(lib, mention, id)) ==> after == table)
  {
    hide AsString, Ids, Assign;
    if mention.Obj? && AsString(lib, Get(mention, "id")).Some? {
      var entry := Entry(AsString(lib, Get(mention, "id")).value, mention.fields);
      AssignKeepsIds(table, entry);
      AssignReplaces(table, entry);
      assert Names(lib, mention, entry.id);
    }
  }

  lemma MentionedIdsMore(lib: Library, mentions: seq<Json>)
    requires mentions != []
    ensures var earlier, mention := MentionedIds(lib, mentions[..|mentions| - 1]), mentions[|mentions| - 1];
            && (forall id | Names(lib, mention, id) ::
                  MentionedIds(lib, mentions) == earlier + [id]
                  && Distinct(earlier + [id]) == if id in Distinct(earlier) then Distinct(earlier) else Distinct(earlier) + [id])
            && ((forall id :: !Names(lib, mention, id)) ==> MentionedIds(lib, mentions) == earlier)
  {
    hide AsString, Distinct;
    var earlier, mention := MentionedIds(lib, mentions[..|mentions| - 1]), mentions[|mentions| - 1];
    assert earlier + [] == earlier;
    if mention.Obj? && AsString(lib, Get(mention, "id")).Some? {
      DistinctMore(earlier, AsString(lib, Get(mention, "id")).value);
      assert Names(lib, mention, AsString(lib, Get(mention, "id")).value);
    }
  }

  lemma NoMentions(lib: Library)
    ensures TableOf(lib, []) == [] && Distinct(MentionedIds(lib, [])) == [] && NoDuplicates(Ids([]))
    ensures forall entry :: !IsLastMention(lib, [], entry)
  {
  }

  lemma DistinctIsDistinct(ids: seq<string>)
    ensures NoDuplicates(Distinct(ids))
  {
    DistinctKeepsFirstOrder(ids);
  }

  // ----- text content -----

  function AtFor(lib: Library, content: string, m: Match, fields: map<string, Json>, position: int): Segment
    requires m.Within(content)
  {
    var mention := Obj(fields);
    At(position,
       Obj(map["token" := Str(m.Token(content)), "mention" := mention]),
       Str(m.Target(content)),
       Bool(false),
       OfText(OrText(AsString(lib, Get(mention, "nickname")), AsString(lib, Get(mention, "username")))),
       if Get(mention, "is_you").Bool? then Get(mention, "is_you") else Null)
  }

  function TextFor(text: string, position: int): Segment {
    Text(position, Str(text), Str(text))
  }

  datatype Pieces = Pieces(segments: seq<Segment>, cursor: nat, matched: seq<string>)

  /** What the loop over the tokens builds: text up to each known mention, then the mention. */
  function PiecesOf(lib: Library, content: string, table: seq<Entry>, matches: seq<Match>,
                    done: Pieces, start: int): (pieces: Pieces)
    requires forall m | m in matches :: m.Within(content)
    requires done.cursor <= |content|
    requires matches != [] ==> done.cursor <= matches[0].start
    requires forall i, j | 0 <= i < j < |matches| :: matches[i].stop <= matches[j].start
    ensures pieces.cursor <= |content|
    decreases matches
  {
    if matches == [] then done
    else PiecesOf(lib, content, table, matches[1..], WithMatch(lib, content, table, matches[0], done, start), start)
  }

  /** One turn of that loop. */
  function WithMatch(lib: Library, content: string, table: seq<Entry>, m: Match, done: Pieces,
                     start: int): (pieces: Pieces)
    requires m.Within(content)
    requires done.cursor <= m.start
    ensures pieces == done || pieces.cursor == m.stop
  {
    var mention := Lookup(table, m.Target(content));
    if mention.None? then done
    else
      var before := if m.start > done.cursor
                    then [TextFor(content[done.cursor..m.start], start + |done.segments|)] else [];
      var segments := done.segments + before;
      Pieces(segments + [AtFor(lib, content, m, mention.value, start + |segments|)],
             m.stop, done.matched + [m.Target(content)])
  }

  /** The mentions no token named, in table order. */
  function Unmatched(table: seq<Entry>, matched: seq<string>, position: int): seq<Segment> {
    if table == [] then []
    else if table[0].id in matched then Unmatched(table[1..], matched, position)
    else [Unknown(position, Obj(table[0].fields), Str("unmatched_mention"))]
         + Unmatched(table[1..], matched, position + 1)
  }

  /** The segments of the payload's content, numbered from `start`. */
  function ContentOf(lib: Library, payload: Json, start: int): seq<Segment>
    requires payload.Obj?
  {
    var content := Get(payload, "content");
    if content == Null || content == Str("") then []
    else if !content.Str? then [Unknown(start, content, Str("unstructured_content"))]
    else
      var table := MentionTable(lib, payload);
      var pieces := PiecesOf(lib, content.text, table, Tokens(content.text, 0), Pieces([], 0, []), start);
      var segments := WithTail(content.text, pieces, start);
      segments + Unmatched(table, pieces.matched, start + |segments|)
  }

  function WithTail(content: string, pieces: Pieces, start: int): seq<Segment>
    requires pieces.cursor <= |content|
  {
    if pieces.cursor < |content| || pieces.segments == []
    then pieces.segments + [TextFor(content[pieces.cursor..], start + |pieces.segments|)]
    else pieces.segments
  }

  // ----- attachments -----

  function AttachmentOf(lib: Library, attachment: Json, position: int): Segment {
    if !attachment.Obj? then Unknown(position, attachment, Str("attachment"))
    else
      var kind := AsString(lib, Get(attachment, "content_type"));
      if kind.Some? && "image/" <= kind.value then
        Image(position, attachment,
              OfText(AsString(lib, Get(attachment, "filename"))),
              OfText(AsString(lib, Get(attachment, "url"))),
              Null, Null,
              OfInt(AsInt(lib, Get(attachment, "size"))),
              Str(kind.value),
              OfInt(AsInt(lib, Get(attachment, "width"))),
              OfInt(AsInt(lib, Get(attachment, "height"))),
              Null)
      else if kind == Some("file") then
        File(position, attachment, Null,
             OfText(AsString(lib, Get(attachment, "filename"))),
             Null,
             OfInt(AsInt(lib, Get(attachment, "size"))),
             OfText(AsString(lib, Get(attachment, "url"))),
             Null)
      else
        Unknown(position, attachment,
                Str(if kind.Some? && kind.value != "" then "attachment:" + kind.value else "attachment"))
  }

  function AttachmentsOf(lib: Library, payload: Json, start: int): seq<Segment>
    requires payload.Obj?
  {
    var attachments := Get(payload, "attachments");
    if attachments.List?
    then seq(|attachments.items|, i requires 0 <= i < |attachments.items| =>
               AttachmentOf(lib, attachments.items[i], start + i))
    else []
  }

  /** Content first, attachments after it, numbered without a gap. */
  function BodyOf(lib: Library, payload: Json, start: int): seq<Segment>
    requires payload.Obj?
  {
    var content := ContentOf(lib, payload, start);
    content + AttachmentsOf(lib, payload, start + |content|)
  }

  /** What the tokens name, in order. */
  function TargetsOf(content: string, tokens: seq<Match>): seq<string>
    requires forall m | m in tokens :: m.Within(content)
  {
    seq(|tokens|, i requires 0 <= i < |tokens| => assert tokens[i] in tokens; tokens[i].Target(content))
  }

  /** A text segment repeats its text, which is not empty; a mention segment shows the entry of the id
      its token names. */
  ghost predicate ShowsPiece(lib: Library, table: seq<Entry>, segment: Segment) {
    match segment
    case Text(_, rawData, text) => text.Str? && text.text != "" && rawData == text
    case At(_, rawData, target, isAll, displayName, isSelf) =>
      exists entry | entry in table :: ShowsEntry(lib, entry, rawData, target, displayName, isSelf) && isAll == Bool(false)
    case _ => false
  }

  predicate ShowsEntry(lib: Library, entry: Entry, rawData: Json, target: Json, displayName: Json, isSelf: Json) {
    var nickname, username := Get(Obj(entry.fields), "nickname"), Get(Obj(entry.fields), "username");
    && target == Str(entry.id)
    && rawData == Obj(map["token" := Str("<@" + entry.id + ">"), "mention" := Obj(entry.fields)])
    && displayName == (if AsString(lib, nickname).Some? && AsString(lib, nickname).value != ""
                       then Str(AsString(lib, nickname).value) else OfText(AsString(lib, username)))
    && isSelf == (if Get(Obj(entry.fields), "is_you").Bool? then Get(Obj(entry.fields), "is_you") else Null)
  }

  // ----- properties -----

  /** The characters of the content a segment stands for. */
  function Rendered(segment: Segment): string {
    match segment
    case Text(_, _, Str(text)) => text
    case At(_, Obj(fields), _, _, _, _) =>
      if "token" in fields && fields["token"].Str? then fields["token"].text else ""
    case _ => ""
  }

  function RenderedAll(segments: seq<Segment>): string {
    if segments == [] then "" else Rendered(segments[0]) + RenderedAll(segments[1..])
  }

  /** The mention ids the AtSegments name, in order. */
  function Targets(segments: seq<Segment>): seq<string> {
    if segments == [] then [] else TargetOf(segments[0]) + Targets(segments[1..])
  }

  function TargetOf(segment: Segment): seq<string> {
    if segment.At? && segment.target.Str? then [segment.target.text] else []
  }

  /** Segments numbered from `start` that hold no lists of their own. */
  ghost predicate FlatFrom(segments: seq<Segment>, start: int) {
    forall i | 0 <= i < |segments| ::
      segments[i].position == start + i && !segments[i].Reply? && !segments[i].Forward?
  }

  lemma {:induction false} Append(a: seq<Segment>, b: seq<Segment>)
    ensures RenderedAll(a + b) == RenderedAll(a) + RenderedAll(b)
    ensures Targets(a + b) == Targets(a) + Targets(b)
  {
    hide Rendered, TargetOf;
    if a == [] {
      assert a + b == b;
    } else {
      assert (a + b)[0] == a[0] && (a + b)[1..] == a[1..] + b;
      Append(a[1..], b);
    }
  }

  lemma Snoc(a: seq<Segment>, s: Segment)
    ensures RenderedAll(a + [s]) == RenderedAll(a) + Rendered(s)
    ensures Targets(a + [s]) == Targets(a) + TargetOf(s)
  {
    Append(a, [s]);
    assert RenderedAll([s]) == Rendered(s) + RenderedAll([]);
    assert Targets([s]) == TargetOf(s) + Targets([]);
  }

  /** Text and mention segments numbered from `start`. */
  ghost predicate SpelledFrom(segments: seq<Segment>, start: int) {
    forall i | 0 <= i < |segments| ::
      segments[i].position == start + i && (segments[i].Text? || segments[i].At?)
  }

  /** What every state of the token loop satisfies. */
  ghost predicate PiecesInv(lib: Library, content: string, table: seq<Entry>, pieces: Pieces, start: int) {
    && pieces.cursor <= |content|
    && RenderedAll(pieces.segments) == content[..pieces.cursor]
    && Targets(pieces.segments) == pieces.matched
    && SpelledFrom(pieces.segments, start)
    && AllShow(lib, table, pieces.segments)
  }

  ghost predicate AllShow(lib: Library, table: seq<Entry>, segments: seq<Segment>) {
    forall segment | segment in segments :: ShowsPiece(lib, table, segment)
  }

  lemma AllShowMore(lib: Library, table: seq<Entry>, segments: seq<Segment>, segment: Segment)
    requires AllShow(lib, table, segments) && ShowsPiece(lib, table, segment)
    ensures AllShow(lib, table, segments + [segment])
  {
    hide ShowsPiece;
  }

  lemma {:induction false} LookupFinds(table: seq<Entry>, id: string)
    ensures Lookup(table, id).Some? <==> id in Ids(table)
    ensures Lookup(table, id).Some? ==> Entry(id, Lookup(table, id).value) in table
  {
    if table != [] {
      MemberOfCons(table);
      LookupFinds(table[1..], id);
    }
  }

  lemma TextKeepsPieces(lib: Library, content: string, table: seq<Entry>, done: Pieces, to: nat, start: int)
    requires PiecesInv(lib, content, table, done, start) && done.cursor < to <= |content|
    ensures PiecesInv(lib, content, table,
                      Pieces(done.segments + [TextFor(content[done.cursor..to], start + |done.segments|)],
                             to, done.matched), start)
  {
    hide RenderedAll, Targets, Ids, AllShow;
    var text := content[done.cursor..to];
    assert content[..done.cursor] + text == content[..to];
    Snoc(done.segments, TextFor(text, start + |done.segments|));
    AllShowMore(lib, table, done.segments, TextFor(text, start + |done.segments|));
  }

  lemma MentionShows(lib: Library, content: string, table: seq<Entry>, m: Match, fields: map<string, Json>, position: int)
    requires IsToken(content, m) && Entry(m.Target(content), fields) in table
    ensures ShowsPiece(lib, table, AtFor(lib, content, m, fields, position))
  {
    hide AsString;
    var entry, at := Entry(m.Target(content), fields), AtFor(lib, content, m, fields, position);
    assert "<@" + entry.id + ">" == m.Token(content);
    assert ShowsEntry(lib, entry, at.rawData, at.target, at.displayName, at.isSelf);
  }

  lemma MentionKeepsPieces(lib: Library, content: string, table: seq<Entry>, m: Match,
                           fields: map<string, Json>, done: Pieces, start: int)
    requires IsToken(content, m) && PiecesInv(lib, content, table, done, start) && done.cursor == m.start
    requires Entry(m.Target(content), fields) in table
    ensures PiecesInv(lib, content, table,
                      Pieces(done.segments + [AtFor(lib, content, m, fields, start + |done.segments|)],
                             m.stop, done.matched + [m.Target(content)]), start)
  {
    hide RenderedAll, Targets, Ids, Lookup, AllShow;
    var at := AtFor(lib, content, m, fields, start + |done.segments|);
    assert Rendered(at) == m.Token(content);
    Snoc(done.segments, at);
    MentionShows(lib, content, table, m, fields, start + |done.segments|);
    AllShowMore(lib, table, done.segments, at);
    assert content[..m.start] + m.Token(content) == content[..m.stop];
  }

  lemma MatchKeepsPieces(lib: Library, content: string, table: seq<Entry>, m: Match, done: Pieces, start: int)
    requires IsToken(content, m) && done.cursor <= m.start
    requires PiecesInv(lib, content, table, done, start)
    ensures PiecesInv(lib, content, table, WithMatch(lib, content, table, m, done, start), start)
  {
    hide PiecesInv, AtFor, TextFor, Ids;
    var mention := Lookup(table, m.Target(content));
    if mention.Some? {
      LookupFinds(table, m.Target(content));
      if m.start > done.cursor {
        TextKeepsPieces(lib, content, table, done, m.start, start);
        MentionKeepsPieces(lib, content, table, m, mention.value,
          Pieces(done.segments + [TextFor(content[done.cursor..m.start], start + |done.segments|)],
                 m.start, done.matched), start);
      } else {
        MentionKeepsPieces(lib, content, table, m, mention.value, done, start);
        assert done.segments + [] == done.segments;
      }
    }
  }

  lemma {:induction false} PiecesKeepInv(lib: Library, content: string, table: seq<Entry>,
                                         matches: seq<Match>, done: Pieces, start: int)
    requires forall m | m in matches :: m.Within(content) && IsToken(content, m)
    requires done.cursor <= |content|
    requires matches != [] ==> done.cursor <= matches[0].start
    requires forall i, j | 0 <= i < j < |matches| :: matches[i].stop <= matches[j].start
    requires PiecesInv(lib, content, table, done, start)
    ensures PiecesInv(lib, content, table, PiecesOf(lib, content, table, matches, done, start), start)
    decreases matches
  {
    if matches != [] {
      MatchKeepsPieces(lib, content, table, matches[0], done, start);
      PiecesKeepInv(lib, content, table, matches[1..],
                    WithMatch(lib, content, table, matches[0], done, start), start);
    }
  }

  lemma NothingIsMatched(content: string, matched: seq<string>, known: string -> bool)
    ensures matched + Filter(TargetsOf(content, []), known) == matched
  {
  }

  lemma MatchIsKnown(lib: Library, content: string, table: seq<Entry>, m: Match, done: Pieces, start: int)
    requires m.Within(content) && done.cursor <= m.start
    ensures WithMatch(lib, content, table, m, done, start).matched
            == done.matched + if m.Target(content) in Ids(table) then [m.Target(content)] else []
  {
    hide AtFor, TextFor, Ids, Lookup;
    LookupFinds(table, m.Target(content));
    assert done.matched + [] == done.matched;
  }

  /** The tokens that name an entry are matched, and no others. */
  lemma {:induction false} MatchedAreKnown(lib: Library, content: string, table: seq<Entry>,
                                           matches: seq<Match>, done: Pieces, start: int)
    requires forall m | m in matches :: m.Within(content)
    requires done.cursor <= |content|
    requires matches != [] ==> done.cursor <= matches[0].start
    requires forall i, j | 0 <= i < j < |matches| :: matches[i].stop <= matches[j].start
    ensures PiecesOf(lib, content, table, matches, done, start).matched
            == done.matched + Filter(TargetsOf(content, matches), (id: string) => id in Ids(table))
    decreases matches
  {
    hide Match.Target, Ids, WithMatch, TargetsOf, Filter;
    if matches == [] {
      NothingIsMatched(content, done.matched, (id: string) => id in Ids(table));
    } else {
      var target, known := matches[0].Target(content), (id: string) => id in Ids(table);
      var next := WithMatch(lib, content, table, matches[0], done, start);
      MatchIsKnown(lib, content, table, matches[0], done, start);
      MatchedAreKnown(lib, content, table, matches[1..], next, start);
      FilterCons(target, TargetsOf(content, matches[1..]), known);
      TargetsCons(content, matches);
    }
  }

  lemma TargetsCons(content: string, tokens: seq<Match>)
    requires tokens != [] && forall m | m in tokens :: m.Within(content)
    ensures TargetsOf(content, tokens) == [tokens[0].Target(content)] + TargetsOf(content, tokens[1..])
  {
    hide Match.Target;
  }

  /** The ids of the entries no token named. */
  function UnmatchedIds(table: seq<Entry>, matched: seq<string>): seq<string> {
    if table == [] then []
    else (if table[0].id in matched then [] else [table[0].id]) + UnmatchedIds(table[1..], matched)
  }

  /** The unmatched-mention segment of the entry with this id. */
  ghost predicate ReportsEntry(table: seq<Entry>, segment: Segment, id: string) {
    && segment.Unknown? && segment.originalType == Str("unmatched_mention")
    && segment.rawData.Obj? && Entry(id, segment.rawData.fields) in table
  }

  ghost predicate ReportsUnmatched(table: seq<Entry>, segments: seq<Segment>, ids: seq<string>) {
    |segments| == |ids| && forall i | 0 <= i < |segments| :: ReportsEntry(table, segments[i], ids[i])
  }

  lemma NothingReported(position: int)
    ensures ReportsUnmatched([], [], []) && FlatFrom([], position)
  {
  }

  lemma StillReported(table: seq<Entry>, segments: seq<Segment>, ids: seq<string>)
    requires table != [] && ReportsUnmatched(table[1..], segments, ids)
    ensures ReportsUnmatched(table, segments, ids)
  {
    MemberOfCons(table);
    forall i | 0 <= i < |segments|
      ensures ReportsEntry(table, segments[i], ids[i])
    {
      assert ReportsEntry(table[1..], segments[i], ids[i]);
    }
  }

  lemma OneMoreReport(table: seq<Entry>, rest: seq<Segment>, ids: seq<string>, position: int)
    requires table != [] && ReportsUnmatched(table[1..], rest, ids) && FlatFrom(rest, position + 1)
    ensures var report := Unknown(position, Obj(table[0].fields), Str("unmatched_mention"));
            ReportsUnmatched(table, [report] + rest, [table[0].id] + ids) && FlatFrom([report] + rest, position)
  {
    MemberOfCons(table);
    var all := [Unknown(position, Obj(table[0].fields), Str("unmatched_mention"))] + rest;
    forall i | 0 <= i < |all|
      ensures ReportsEntry(table, all[i], ([table[0].id] + ids)[i]) && all[i].position == position + i
    {
      if i > 0 {
        assert all[i] == rest[i - 1] && ReportsEntry(table[1..], rest[i - 1], ids[i - 1]);
      }
    }
  }

  lemma {:induction false} UnmatchedShape(table: seq<Entry>, matched: seq<string>, position: int)
    ensures ReportsUnmatched(table, Unmatched(table, matched, position), UnmatchedIds(table, matched))
    ensures FlatFrom(Unmatched(table, matched, position), position)
  {
    hide ReportsUnmatched, FlatFrom;
    if table == [] {
      NothingReported(position);
    } else {
      if table[0].id in matched {
        UnmatchedShape(table[1..], matched, position);
        StillReported(table, Unmatched(table[1..], matched, position), UnmatchedIds(table[1..], matched));
        assert [] + UnmatchedIds(table[1..], matched) == UnmatchedIds(table[1..], matched);
      } else {
        UnmatchedShape(table[1..], matched, position + 1);
        OneMoreReport(table, Unmatched(table[1..], matched, position + 1), UnmatchedIds(table[1..], matched), position);
      }
    }
  }

  lemma {:induction false} UnmatchedAreTheOthers(table: seq<Entry>, matched: seq<string>)
    requires NoDuplicates(Ids(table))
    ensures NoDuplicates(UnmatchedIds(table, matched))
    ensures forall id :: id in UnmatchedIds(table, matched) <==> id in Ids(table) && id !in matched
  {
    if table != [] {
      DistinctCons(table[0].id, Ids(table[1..]));
      UnmatchedAreTheOthers(table[1..], matched);
      DistinctCons(table[0].id, UnmatchedIds(table[1..], matched));
    }
  }

  lemma NoPieces(lib: Library, content: string, table: seq<Entry>, start: int)
    ensures PiecesInv(lib, content, table, Pieces([], 0, []), start)
  {
  }

  /** The content segments split into what spells the text and the unmatched mentions. */
  lemma {:induction false} ContentSplits(lib: Library, payload: Json, start: int)
    returns (body: seq<Segment>, rest: seq<Segment>, pieces: Pieces)
    requires payload.Obj? && Get(payload, "content").Str? && Get(payload, "content").text != ""
    ensures ContentOf(lib, payload, start) == body + rest
    ensures RenderedAll(body) == Get(payload, "content").text
    ensures body != [] && SpelledFrom(body, start)
    ensures AllShow(lib, MentionTable(lib, payload), body)
    ensures Targets(body) == pieces.matched
    ensures var content := Get(payload, "content").text;
            pieces.matched == Filter(TargetsOf(content, Tokens(content, 0)),
                                     (id: string) => id in Ids(MentionTable(lib, payload)))
    ensures rest == Unmatched(MentionTable(lib, payload), pieces.matched, start + |body|)
  {
    hide MentionTable, PiecesOf, Tokens, RenderedAll, Targets, Unmatched, Ids, AllShow, TargetsOf, Filter, IsToken,
         Opens;
    var content := Get(payload, "content").text;
    var table := MentionTable(lib, payload);
    NoPieces(lib, content, table, start);
    TokensAreTheTokens(content, 0);
    MatchedAreKnown(lib, content, table, Tokens(content, 0), Pieces([], 0, []), start);
    PiecesKeepInv(lib, content, table, Tokens(content, 0), Pieces([], 0, []), start);
    pieces := PiecesOf(lib, content, table, Tokens(content, 0), Pieces([], 0, []), start);
    body := WithTail(content, pieces, start);
    rest := Unmatched(table, pieces.matched, start + |body|);
    if pieces.cursor < |content| {
      TextKeepsPieces(lib, content, table, pieces, |content|, start);
      assert content[pieces.cursor..|content|] == content[pieces.cursor..];
    }
  }

  /** The table of a payload, which need not have a list of mentions. */
  lemma TableOfPayload(lib: Library, payload: Json)
    requires payload.Obj?
    ensures var mentions := if Get(payload, "mentions").List? then Get(payload, "mentions").items else [];
            && NoDuplicates(Ids(MentionTable(lib, payload)))
            && Ids(MentionTable(lib, payload)) == Distinct(MentionedIds(lib, mentions))
            && forall entry :: entry in MentionTable(lib, payload) <==> IsLastMention(lib, mentions, entry)
  {
    NoMentions(lib);
    if Get(payload, "mentions").List? {
      TableIsTheMentions(lib, Get(payload, "mentions").items);
    }
  }

  /** For every text content the text and mention segments spell it out again, each shows what it
      stands for, and the mention segments are the tokens that name an entry of the table, in order.
      The entries no token names are reported, each once. */
  lemma ContentIsPreserved(lib: Library, payload: Json, start: int)
    returns (body: seq<Segment>, rest: seq<Segment>, ids: seq<string>, tokens: seq<Match>)
    requires payload.Obj? && Get(payload, "content").Str? && Get(payload, "content").text != ""
    ensures var content, table := Get(payload, "content").text, MentionTable(lib, payload);
            && ContentOf(lib, payload, start) == body + rest
            && RenderedAll(body) == content
            && body != [] && SpelledFrom(body, start) && AllShow(lib, table, body)
            && AreTheTokens(content, 0, tokens)
            && Targets(body) == Filter(TargetsOf(content, tokens), (id: string) => id in Ids(table))
            && ReportsUnmatched(table, rest, ids) && NoDuplicates(ids)
            && forall id :: id in ids <==> id in Ids(table) && id !in TargetsOf(content, tokens)
  {
    hide MentionTable, Tokens, RenderedAll, Targets, Unmatched, Ids, AllShow, TargetsOf, Opens, IsToken, Filter,
         ReportsUnmatched;
    var content, table := Get(payload, "content").text, MentionTable(lib, payload);
    TableOfPayload(lib, payload);
    tokens := Tokens(content, 0);
    TokensAreTheTokens(content, 0);
    var pieces;
    body, rest, pieces := ContentSplits(lib, payload, start);
    FilterMembers(TargetsOf(content, tokens), (id: string) => id in Ids(table));
    ids := MatchedOrReported(table, pieces.matched, rest, start + |body|);
  }

  lemma {:induction false} MatchedOrReported(
      table: seq<Entry>, matched: seq<string>, rest: seq<Segment>, position: int)
    returns (ids: seq<string>)
    requires NoDuplicates(Ids(table))
    requires rest == Unmatched(table, matched, position)
    ensures ReportsUnmatched(table, rest, ids) && NoDuplicates(ids)
    ensures forall id :: id in ids <==> id in Ids(table) && id !in matched
  {
    ids := UnmatchedIds(table, matched);
    UnmatchedShape(table, matched, position);
    UnmatchedAreTheOthers(table, matched);
  }

  lemma ContentIsNumbered(lib: Library, payload: Json, start: int)
    requires payload.Obj?
    ensures FlatFrom(ContentOf(lib, payload, start), start)
  {
    hide MentionTable, PiecesOf, Tokens, Unmatched, Ids, UnmatchedIds, RenderedAll, Targets;
    var content := Get(payload, "content");
    if content.Str? && content.text != "" {
      var body, rest, pieces := ContentSplits(lib, payload, start);
      UnmatchedShape(MentionTable(lib, payload), pieces.matched, start + |body|);
    }
  }

  lemma AttachmentsAreNumbered(lib: Library, payload: Json, start: int)
    requires payload.Obj?
    ensures FlatFrom(AttachmentsOf(lib, payload, start), start)
  {
  }

  /** The segment shows this attachment: an image for an image type, a file for a file, and otherwise
      an unknown segment named after the type. */
  ghost predicate ShowsAttachment(lib: Library, attachment: Json, segment: Segment) {
    var kind := if attachment.Obj? then AsString(lib, Get(attachment, "content_type")) else None;
    && segment.rawData == attachment
    && (segment.Image? <==> kind.Some? && "image/" <= kind.value)
    && (segment.File? <==> kind == Some("file"))
    && (segment.Image? || segment.File? || segment.Unknown?)
    && (segment.Image? ==>
          && segment.contentType == Str(kind.value) && segment.file == OfText(AsString(lib, Get(attachment, "filename")))
          && segment.width == OfInt(AsInt(lib, Get(attachment, "width")))
          && segment.height == OfInt(AsInt(lib, Get(attachment, "height"))) && segment.description == Null)
    && (segment.File? ==> segment.name == OfText(AsString(lib, Get(attachment, "filename"))))
    && (segment.Image? || segment.File? ==>
          && segment.url == OfText(AsString(lib, Get(attachment, "url")))
          && segment.fileSize == OfInt(AsInt(lib, Get(attachment, "size"))))
    && (segment.Unknown? ==>
          segment.originalType == Str("attachment" + if kind.Some? && kind.value != "" then ":" + kind.value else ""))
  }

  /** One segment for each attachment, in order. */
  lemma AttachmentsAreShown(lib: Library, payload: Json, start: int)
    requires payload.Obj?
    ensures var segments := AttachmentsOf(lib, payload, start);
            if Get(payload, "attachments").List? then
              var attachments := Get(payload, "attachments").items;
              |segments| == |attachments|
              && forall i | 0 <= i < |segments| :: ShowsAttachment(lib, attachments[i], segments[i])
            else segments == []
  {
    hide AsString, AsInt;
    assert "attachment" + "" == "attachment";
    if Get(payload, "attachments").List? {
      forall kind: string
        ensures "attachment" + ":" + kind == "attachment" + (":" + kind)
      {
      }
      forall i | 0 <= i < |AttachmentsOf(lib, payload, start)|
        ensures ShowsAttachment(lib, Get(payload, "attachments").items[i], AttachmentsOf(lib, payload, start)[i])
      {
      }
    }
  }

  /** A body holds no nested list and is numbered without a gap. */
  lemma BodyIsNumbered(lib: Library, payload: Json, start: int)
    requires payload.Obj?
    ensures FlatFrom(BodyOf(lib, payload, start), start)
  {
    ContentIsNumbered(lib, payload, start);
    AttachmentsAreNumbered(lib, payload, start + |ContentOf(lib, payload, start)|);
  }
}
