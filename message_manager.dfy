/** The pure pieces of src/guild/message_manager.rs: the reaction-emoji
    codec of EmoteAction, the clock-style duration text, and the search
    message (its text, the emoji it offers and the choice a reaction
    makes). */
module MessageManager {
  import opened Wrappers
  import opened Decimal
  import P = Player

  /** SEARCH_TITLE_LIMIT: the characters of a title a search line shows. */
  const SearchTitleLimit: nat := 40

  /** The characters of the requester's name the search header shows. */
  const RequesterNameLimit: nat := 16

  /** The most search results a search message lists. */
  const SearchListLimit: nat := 10

  // ---------------------------------------------------------------------
  // EmoteAction and its emoji
  // ---------------------------------------------------------------------

  datatype EmoteAction =
    | Number(n: nat)
    | PlayPause
    | Next
    | Prev
    | Join
    | Leave
    | Delete
    | LoopOne
    | LoopAll
    | Nothing

  /** NUMBERS: keycap digits 0 to 9, then the keycap ten. */
  const Numbers: seq<string> := [
    "0\U{FE0F}\U{20E3}", "1\U{FE0F}\U{20E3}", "2\U{FE0F}\U{20E3}", "3\U{FE0F}\U{20E3}",
    "4\U{FE0F}\U{20E3}", "5\U{FE0F}\U{20E3}", "6\U{FE0F}\U{20E3}", "7\U{FE0F}\U{20E3}",
    "8\U{FE0F}\U{20E3}", "9\U{FE0F}\U{20E3}", "\U{1F51F}"]

  const PlayPauseEmoji: string := "\U{23EF}"
  const NextEmoji: string := "\U{23ED}"
  const PrevEmoji: string := "\U{23EE}"
  const JoinEmoji: string := "\U{1F4E5}"
  const LeaveEmoji: string := "\U{1F4E4}"
  const DeleteEmoji: string := "\U{274C}"
  const LoopOneEmoji: string := "\U{1F502}"
  const LoopAllEmoji: string := "\U{1F501}"
  const NothingEmoji: string := "\U{7121}"

  /** The emoji that name a non-number action, in the order the decoder
      tries them. */
  const NamedEmoji: seq<string> := [
    PlayPauseEmoji, NextEmoji, PrevEmoji, JoinEmoji, LeaveEmoji,
    DeleteEmoji, LoopOneEmoji, LoopAllEmoji, NothingEmoji]

  /** An action that has an emoji: every action but a number above ten. */
  predicate HasEmoji(a: EmoteAction) {
    a.Number? ==> a.n < |Numbers|
  }

  /** EmoteAction::unicode: the action's emoji; a number without a keycap
      gets the empty string. */
  function Unicode(a: EmoteAction): (r: string)
    ensures r == "" <==> !HasEmoji(a)
    ensures a.Number? && HasEmoji(a) ==> r == Numbers[a.n]
  {
    match a
    case Number(n) => if n < |Numbers| then Numbers[n] else ""
    case PlayPause => PlayPauseEmoji
    case Next => NextEmoji
    case Prev => PrevEmoji
    case Join => JoinEmoji
    case Leave => LeaveEmoji
    case Delete => DeleteEmoji
    case LoopOne => LoopOneEmoji
    case LoopAll => LoopAllEmoji
    case Nothing => NothingEmoji
  }

  /** The first position of s in xs (`iter().position`). */
  function Position(xs: seq<string>, s: string): (r: Option<nat>)
    ensures r.None? <==> s !in xs
    ensures r.Some? ==> r.value < |xs| && xs[r.value] == s
    ensures r.Some? ==> forall j :: 0 <= j < r.value ==> xs[j] != s
  {
    if xs == [] then None
    else if xs[0] == s then Some(0)
    else match Position(xs[1..], s)
      case None => None
      case Some(i) => Some(i + 1)
  }

  /** `EmoteAction::try_from(&str)`: the named emoji first, then the
      position among the keycaps; any other string is rejected. */
  function FromUnicode(s: string): (r: Option<EmoteAction>)
  {
    if s == PlayPauseEmoji then Some(PlayPause)
    else if s == NextEmoji then Some(Next)
    else if s == PrevEmoji then Some(Prev)
    else if s == JoinEmoji then Some(Join)
    else if s == LeaveEmoji then Some(Leave)
    else if s == DeleteEmoji then Some(Delete)
    else if s == LoopOneEmoji then Some(LoopOne)
    else if s == LoopAllEmoji then Some(LoopAll)
    else if s == NothingEmoji then Some(Nothing)
    else match Position(Numbers, s)
      case None => None
      case Some(i) => Some(Number(i))
  }

  /** Decoding an emoji and encoding the action again gives the emoji
      back, and every decoded action has an emoji. */
  lemma UnicodeFromUnicode(s: string)
    ensures FromUnicode(s).Some? ==> HasEmoji(FromUnicode(s).value) && Unicode(FromUnicode(s).value) == s
  {
    if s in NamedEmoji {
      NamedDecodes(s);
    } else {
      assert FromUnicode(s) == match Position(Numbers, s) case None => None case Some(i) => Some(Number(i));
    }
  }

  /** A named emoji decodes to the action whose emoji it is. */
  lemma NamedDecodes(s: string)
    requires s in NamedEmoji
    ensures FromUnicode(s).Some? && !FromUnicode(s).value.Number? && Unicode(FromUnicode(s).value) == s
  {
    if s == PlayPauseEmoji {
      assert FromUnicode(s) == Some(PlayPause);
    } else if s == NextEmoji {
      assert FromUnicode(s) == Some(Next);
    } else if s == PrevEmoji {
      assert FromUnicode(s) == Some(Prev);
    } else if s == JoinEmoji {
      assert FromUnicode(s) == Some(Join);
    } else if s == LeaveEmoji {
      assert FromUnicode(s) == Some(Leave);
    } else if s == DeleteEmoji {
      assert FromUnicode(s) == Some(Delete);
    } else if s == LoopOneEmoji {
      assert FromUnicode(s) == Some(LoopOne);
    } else if s == LoopAllEmoji {
      assert FromUnicode(s) == Some(LoopAll);
    } else if s == NothingEmoji {
      assert FromUnicode(s) == Some(Nothing);
    }
  }

  /** The keycaps 0 to 9 are three characters long and start with their
      digit; the keycap ten is one character. */
  lemma KeycapShape(j: nat)
    requires j < |Numbers|
    ensures j < 10 ==> |Numbers[j]| == 3 && Numbers[j][0] == DigitChar(j)
    ensures j == 10 ==> Numbers[j] == "\U{1F51F}"
  {
  }

  /** Two different keycaps differ. */
  lemma KeycapsDiffer(j: nat, n: nat)
    requires j < |Numbers| && n < |Numbers| && j != n
    ensures Numbers[j] != Numbers[n]
  {
    KeycapShape(j);
    KeycapShape(n);
    if j < 10 && n < 10 {
      assert Numbers[j][0] != Numbers[n][0];
    }
  }

  /** No keycap is a named emoji. */
  lemma KeycapNotNamed(n: nat)
    requires n < |Numbers|
    ensures Numbers[n] !in NamedEmoji
  {
    KeycapShape(n);
  }

  /** The keycaps are pairwise different, so a keycap decodes to its own
      number. */
  lemma NumbersDecode(n: nat)
    requires n < |Numbers|
    ensures Position(Numbers, Numbers[n]) == Some(n)
  {
    forall j | 0 <= j < |Numbers| && j != n
      ensures Numbers[j] != Numbers[n]
    {
      KeycapsDiffer(j, n);
    }
    PositionOfDistinct(Numbers, n);
  }

  /** In a sequence whose other elements all differ from xs[n], the first
      position of xs[n] is n. */
  lemma {:induction false} PositionOfDistinct(xs: seq<string>, n: nat)
    requires n < |xs|
    requires forall j :: 0 <= j < |xs| && j != n ==> xs[j] != xs[n]
    ensures Position(xs, xs[n]) == Some(n)
  {
    if n > 0 {
      assert xs[1..][n - 1] == xs[n];
      PositionOfDistinct(xs[1..], n - 1);
    }
  }

  /** Encoding an action that has an emoji and decoding it gives the action
      back: the codec is a bijection between those actions and the twenty
      emoji. */
  lemma FromUnicodeUnicode(a: EmoteAction)
    requires HasEmoji(a)
    ensures FromUnicode(Unicode(a)) == Some(a)
  {
    if a.Number? {
      KeycapDecodes(a.n);
    }
  }

  /** The keycap of n decodes to Number(n): it is none of the named emoji,
      and its first position among the keycaps is n. */
  lemma KeycapDecodes(n: nat)
    requires n < |Numbers|
    ensures FromUnicode(Numbers[n]) == Some(Number(n))
  {
    var s := Numbers[n];
    KeycapNotNamed(n);
    NumbersDecode(n);
    assert s != PlayPauseEmoji && s != NextEmoji && s != PrevEmoji && s != JoinEmoji && s != LeaveEmoji;
    assert s != DeleteEmoji && s != LoopOneEmoji && s != LoopAllEmoji && s != NothingEmoji;
  }

  /** Exactly the twenty emoji decode. */
  lemma FromUnicodeAccepts(s: string)
    ensures FromUnicode(s).Some? <==> s in NamedEmoji || s in Numbers
  {
  }

  /** A number above ten has no emoji, so it can never be offered or
      decoded. */
  lemma NoEmojiBeyondTen(n: nat)
    requires n >= |Numbers|
    ensures Unicode(Number(n)) == ""
    ensures FromUnicode("") == None
  {
  }

  // ---------------------------------------------------------------------
  // duration_fmt
  // ---------------------------------------------------------------------

  /** duration_fmt of a duration of ms milliseconds: whole seconds only,
      "hh:" only when there is at least one hour, then "mm:ss", each field
      zero-padded to two digits (hours may have more). */
  function DurationFmt(ms: nat): (r: string)
    ensures |r| == 5 <==> ms / 1000 < 3600
    ensures |r| >= 5
  {
    var secs := ms / 1000;
    var seconds := secs % 60;
    var minutes := (secs / 60) % 60;
    var hours := (secs / 60) / 60;
    (if hours > 0 then Pad2(hours) + ":" else "") + Pad2(minutes) + ":" + Pad2(seconds)
  }

  /** The reading of a clock text "[h:]m:s" in seconds: two or three
      ':'-separated decimal fields. */
  function ParseClock(s: string): (r: Option<nat>)
  {
    var f := Split(s);
    if |f| == 2 && Parse(f[0]).Some? && Parse(f[1]).Some? then
      Some(Parse(f[0]).value * 60 + Parse(f[1]).value)
    else if |f| == 3 && Parse(f[0]).Some? && Parse(f[1]).Some? && Parse(f[2]).Some? then
      Some(Parse(f[0]).value * 3600 + Parse(f[1]).value * 60 + Parse(f[2]).value)
    else
      None
  }

  /** The ':'-separated fields of DurationFmt: the hours (only when there
      is at least one), the minutes and the seconds, each as `{:02}`. */
  lemma DurationFmtFields(ms: nat)
    ensures var secs := ms / 1000;
            Split(DurationFmt(ms))
            == (if secs / 60 / 60 > 0 then [Pad2(secs / 60 / 60)] else []) + [Pad2(secs / 60 % 60), Pad2(secs % 60)]
  {
    var secs := ms / 1000;
    var seconds := secs % 60;
    var minutes := (secs / 60) % 60;
    var hours := (secs / 60) / 60;
    var ms' := Pad2(minutes) + ":" + Pad2(seconds);
    DigitsHaveNoColon(Pad2(hours));
    DigitsHaveNoColon(Pad2(minutes));
    DigitsHaveNoColon(Pad2(seconds));
    SplitField(Pad2(minutes), Pad2(seconds));
    SplitNoColon(Pad2(seconds));
    assert Split(ms') == [Pad2(minutes), Pad2(seconds)];
    if hours > 0 {
      SplitField(Pad2(hours), ms');
      assert DurationFmt(ms) == Pad2(hours) + ":" + ms';
    } else {
      assert DurationFmt(ms) == ms';
    }
  }

  /** DurationFmt loses only the sub-second part: reading its text back
      gives the whole seconds of the duration. */
  lemma DurationFmtReadsBack(ms: nat)
    ensures ParseClock(DurationFmt(ms)) == Some(ms / 1000)
    ensures var f := Split(DurationFmt(ms));
            (|f| == 2 <==> ms / 1000 < 3600)
            && Parse(f[|f| - 2]).Some? && Parse(f[|f| - 2]).value < 60
            && Parse(f[|f| - 1]).Some? && Parse(f[|f| - 1]).value < 60
  {
    var secs := ms / 1000;
    DurationFmtFields(ms);
    assert secs == (secs / 60 / 60) * 3600 + (secs / 60 % 60) * 60 + secs % 60;
  }

  /** The fields are zero-padded: minutes and seconds are exactly two
      digits, and the hours, when present, are `{:02}` of the hours (two
      digits below 100, plain decimal from 10 on). */
  lemma DurationFmtPadded(ms: nat)
    ensures var f := Split(DurationFmt(ms));
            |f| >= 2 && |f[|f| - 2]| == 2 && |f[|f| - 1]| == 2 && |f[0]| >= 2
            && AllDigits(f[|f| - 2]) && AllDigits(f[|f| - 1])
            && (|f| == 3 ==> f[0] == Pad2(ms / 1000 / 60 / 60))
  {
    DurationFmtFields(ms);
  }

  // ---------------------------------------------------------------------
  // SearchMessage
  // ---------------------------------------------------------------------

  /** Number(from), ..., Number(to - 1). */
  function NumberRange(from: nat, to: nat): (r: seq<EmoteAction>)
    ensures |r| == (if from <= to then to - from else 0)
    ensures forall j :: 0 <= j < |r| ==> r[j] == Number(from + j)
    decreases if from <= to then to - from else 0
  {
    if from < to then [Number(from)] + NumberRange(from + 1, to) else []
  }

  /** The emotes `search` puts under a message listing count results, as
      written: `(1..count).take(10)` as numbers, then Delete. */
  function SearchEmotes(count: nat): (r: seq<EmoteAction>)
    ensures |r| == (if count <= 1 then 0 else Min(count - 1, SearchListLimit)) + 1
    ensures forall j :: 0 <= j < |r| - 1 ==> r[j] == Number(j + 1)
    ensures r[|r| - 1] == Delete
  {
    NumberRange(1, 1 + (if count <= 1 then 0 else Min(count - 1, SearchListLimit))) + [Delete]
  }

  /** The emotes the listing calls for: one number per listed result, from
      1 to min(count, 10), then Delete. */
  function SearchEmotesIntended(count: nat): (r: seq<EmoteAction>)
    ensures |r| == Min(count, SearchListLimit) + 1
    ensures forall j :: 0 <= j < |r| - 1 ==> r[j] == Number(j + 1)
    ensures r[|r| - 1] == Delete
  {
    NumberRange(1, 1 + Min(count, SearchListLimit)) + [Delete]
  }

  /** The reaction filter: a reaction passes when its emoji is the emoji of
      one of the offered emotes. */
  predicate Offered(emotes: seq<EmoteAction>, emoji: string) {
    exists e :: e in emotes && Unicode(e) == emoji
  }

  /** The result index a reaction that passed the filter selects: a number
      i picks result i - 1 when there is one; Delete and everything else
      pick nothing. */
  function Selection(count: nat, a: Option<EmoteAction>): (r: Option<nat>)
    ensures r.Some? <==> a.Some? && a.value.Number? && 1 <= a.value.n <= count
    ensures r.Some? ==> r.value < count && a.value == Number(r.value + 1)
  {
    match a
    case Some(Number(i)) => if 1 <= i <= count then Some(i - 1) else None
    case _ => None
  }

  /** The outcome of a search message given the reactions the requester
      adds before the timeout, in order: the first one that passes the
      filter decides, and picks a result index or nothing (a Delete, or a
      timeout when none passes). */
  function SearchPick(emotes: seq<EmoteAction>, count: nat, reactions: seq<string>): (r: Option<nat>)
    ensures r.Some? ==> r.value < count
    ensures r.Some? ==> exists k :: 0 <= k < |reactions| && Offered(emotes, reactions[k])
                                    && Selection(count, FromUnicode(reactions[k])) == r
  {
    if reactions == [] then None
    else if Offered(emotes, reactions[0]) then Selection(count, FromUnicode(reactions[0]))
    else
      var r := SearchPick(emotes, count, reactions[1..]);
      if r.Some? then
        var k :| 0 <= k < |reactions[1..]| && Offered(emotes, reactions[1..][k])
                 && Selection(count, FromUnicode(reactions[1..][k])) == r;
        assert reactions[k + 1] == reactions[1..][k];
        r
      else r
  }

  /** The first reaction that passes the filter decides: whatever follows
      it is ignored. */
  lemma {:induction false} SearchPickFirst(emotes: seq<EmoteAction>, count: nat, reactions: seq<string>, k: nat)
    requires k < |reactions| && Offered(emotes, reactions[k])
    requires forall j :: 0 <= j < k ==> !Offered(emotes, reactions[j])
    ensures SearchPick(emotes, count, reactions) == Selection(count, FromUnicode(reactions[k]))
  {
    if k > 0 {
      var rest := reactions[1..];
      assert rest[k - 1] == reactions[k];
      forall j | 0 <= j < k - 1
        ensures !Offered(emotes, rest[j])
      {
        assert rest[j] == reactions[j + 1];
      }
      SearchPickFirst(emotes, count, rest, k - 1);
    }
  }

  /** When no reaction passes the filter the collector times out: nothing
      is picked. */
  lemma {:induction false} SearchPickNoneOffered(emotes: seq<EmoteAction>, count: nat, reactions: seq<string>)
    requires forall j :: 0 <= j < |reactions| ==> !Offered(emotes, reactions[j])
    ensures SearchPick(emotes, count, reactions) == None
  {
    if reactions != [] {
      var rest := reactions[1..];
      forall j | 0 <= j < |rest|
        ensures !Offered(emotes, rest[j])
      {
        assert rest[j] == reactions[j + 1];
      }
      SearchPickNoneOffered(emotes, count, rest);
    }
  }

  /** An emoji that passed the filter decodes to one of the offered
      emotes. */
  lemma OfferedDecodes(emotes: seq<EmoteAction>, emoji: string)
    requires forall e :: e in emotes ==> HasEmoji(e)
    requires Offered(emotes, emoji)
    ensures FromUnicode(emoji).Some? && FromUnicode(emoji).value in emotes
  {
    var e :| e in emotes && Unicode(e) == emoji;
    FromUnicodeUnicode(e);
  }

  /** A pick comes from an offered number emote: result i - 1 is picked
      only if Number(i) is offered. */
  lemma {:induction false} PickIsOffered(emotes: seq<EmoteAction>, count: nat, reactions: seq<string>)
    requires forall e :: e in emotes ==> HasEmoji(e)
    ensures var r := SearchPick(emotes, count, reactions);
            r.Some? ==> Number(r.value + 1) in emotes
  {
    var r := SearchPick(emotes, count, reactions);
    if r.Some? {
      var k :| 0 <= k < |reactions| && Offered(emotes, reactions[k]) && Selection(count, FromUnicode(reactions[k])) == r;
      var emoji := reactions[k];
      OfferedDecodes(emotes, emoji);
      assert FromUnicode(emoji) == Some(Number(r.value + 1));
    }
  }

  /** Only a listed number can pick a result: a pick under the emotes as
      written is below min(count - 1, 10). */
  lemma SearchPickAsWritten(count: nat, reactions: seq<string>)
    ensures var r := SearchPick(SearchEmotes(count), count, reactions);
            r.Some? ==> r.value < Min(count - 1, SearchListLimit)
  {
    var emotes := SearchEmotes(count);
    PickIsOffered(emotes, count, reactions);
  }

  /** The search message lists min(count, 10) results, numbered 1 up, but
      when 1 <= count <= 10 the last of them has no emote, so no reaction
      sequence can select it. */
  lemma LastListedUnselectable(count: nat, reactions: seq<string>)
    requires 1 <= count <= SearchListLimit
    ensures SearchPick(SearchEmotes(count), count, reactions) != Some(count - 1)
  {
    SearchPickAsWritten(count, reactions);
  }

  /** With the intended emotes every listed result is selected by its own
      number's emoji, and nothing else can be picked. */
  lemma SearchPickIntended(count: nat, j: nat, reactions: seq<string>)
    requires j < Min(count, SearchListLimit)
    ensures SearchPick(SearchEmotesIntended(count), count, [Unicode(Number(j + 1))]) == Some(j)
    ensures var r := SearchPick(SearchEmotesIntended(count), count, reactions);
            r.Some? ==> r.value < Min(count, SearchListLimit)
  {
    var emotes := SearchEmotesIntended(count);
    assert emotes[j] == Number(j + 1);
    FromUnicodeUnicode(Number(j + 1));
    assert Offered(emotes, Unicode(Number(j + 1)));
    PickIsOffered(emotes, count, reactions);
  }

  /** The first k characters of s (`{:.*}` with precision k on a string). */
  function Truncate(s: string, k: nat): (r: string)
    ensures |r| == Min(|s|, k) && r == s[..|r|]
  {
    if |s| <= k then s else s[..k]
  }

  /** A result's title, or "Missing Name" when Lavalink sent no metadata. */
  function TitleOrMissing(t: P.Track): string {
    match t.info
    case None => "Missing Name"
    case Some(info) => info.title
  }

  /** The header line: the query in brackets, then the requester's name cut
      to 16 characters. */
  function SearchHeader(query: string, requester: string): (r: string)
    ensures |r| == |query| + 3 + Min(|requester|, RequesterNameLimit) + 2
    ensures r[..1] == "[" && r[1..|query| + 1] == query && r[|r| - 2..] == "\r\n"
    ensures r[|query| + 1..|query| + 3] == "] " && r[|query| + 3..|r| - 2] == Truncate(requester, RequesterNameLimit)
  {
    "[" + query + "] " + Truncate(requester, RequesterNameLimit) + "\r\n"
  }

  /** The line for result i (0-based): its 1-based number, then the title
      cut to 40 characters. */
  function ListingLine(i: nat, t: P.Track): (r: string)
    requires i < SearchListLimit
    ensures |r| <= 2 + 2 + SearchTitleLimit + 2
  {
    Show(i + 1) + ": " + Truncate(TitleOrMissing(t), SearchTitleLimit) + "\r\n"
  }

  /** Line i reads: the number i + 1, ": ", the title cut to 40 characters
      (or "Missing Name"), then CR LF. */
  lemma ListingLineShape(i: nat, t: P.Track)
    requires i < SearchListLimit
    ensures var r := ListingLine(i, t);
            var w := |Show(i + 1)|;
            w + 4 <= |r| && Parse(r[..w]) == Some(i + 1) && r[w] == ':' && r[w + 1] == ' '
            && r[(w + 2)..(|r| - 2)] == Truncate(TitleOrMissing(t), SearchTitleLimit)
            && r[|r| - 2..] == "\r\n"
  {
    var r := ListingLine(i, t);
    var number := Show(i + 1);
    assert r[..|number|] == number;
    ParseShow(i + 1);
  }

  /** The lines for the first n results. */
  function Listing(tracks: seq<P.Track>, n: nat): (r: string)
    requires n <= |tracks| && n <= SearchListLimit
    ensures |r| <= n * (4 + SearchTitleLimit + 2)
  {
    if n == 0 then "" else Listing(tracks, n - 1) + ListingLine(n - 1, tracks[n - 1])
  }

  /** Lines are only ever appended: the listing of the first m results
      starts the listing of the first n >= m. */
  lemma {:induction false} ListingPrefix(tracks: seq<P.Track>, m: nat, n: nat)
    requires m <= n <= |tracks| && n <= SearchListLimit
    ensures Listing(tracks, m) <= Listing(tracks, n)
    decreases n
  {
    if m < n {
      ListingPrefix(tracks, m, n - 1);
    }
  }

  lemma ListingStep(tracks: seq<P.Track>, i: nat)
    requires i < |tracks| && i < SearchListLimit
    ensures Listing(tracks, i + 1) == Listing(tracks, i) + ListingLine(i, tracks[i])
  {
  }

  lemma AppendAssoc<T>(a: seq<T>, b: seq<T>, c: seq<T>)
    ensures a + b + c == a + (b + c)
  {
  }

  /** SearchMessage::content without the code block around it: the header,
      then one line per result for at most ten results. */
  method SearchContent(tracks: seq<P.Track>, query: string, requester: string) returns (content: string)
    ensures content == SearchHeader(query, requester) + Listing(tracks, Min(|tracks|, SearchListLimit))
  {
    var header := SearchHeader(query, requester);
    content := header;
    var count := Min(|tracks|, SearchListLimit);
    for i := 0 to count
      invariant content == header + Listing(tracks, i)
    {
      var line := ListingLine(i, tracks[i]);
      ListingStep(tracks, i);
      AppendAssoc(header, Listing(tracks, i), line);
      content := content + line;
    }
  }

  /** The number on line i of the listing is the number whose emoji the
      intended emotes offer for result i. */
  lemma ListingNumberMatchesEmote(count: nat, i: nat, t: P.Track)
    requires i < Min(count, SearchListLimit)
    ensures SearchEmotesIntended(count)[i] == Number(i + 1)
    ensures Parse(ListingLine(i, t)[..|Show(i + 1)|]) == Some(SearchEmotesIntended(count)[i].n)
  {
    ListingLineShape(i, t);
  }
}
