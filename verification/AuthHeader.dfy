/** The `authorization` and `www-authenticate` headers: printing and parsing. The form is the one of
    section 2.1 of RFC 7235: a scheme followed by comma-separated parameters. */
module AuthHeader {
  import opened Base
  import opened Splitting

  datatype Authorization = Authorization(ticket: string, nonce: string)

  /** The words of the header. */
  datatype Words = Words(scheme: string, ticket: string, nonce: string)

  const WORDS: Words := Words("drop", "ticket", "nonce")

  // ----- Text

  /** The white space of Unicode. */
  predicate White(c: char) {
    var n := c as int;
    0x9 <= n <= 0xD || n == 0x20 || n == 0x85 || n == 0xA0 || n == 0x1680 || 0x2000 <= n <= 0x200A
    || n == 0x2028 || n == 0x2029 || n == 0x202F || n == 0x205F || n == 0x3000
  }

  predicate AsciiWhite(c: char) {
    c in {' ', '\t', '\n', '\r', '\U{000C}'}
  }

  predicate IsQuote(c: char) {
    c == '\"'
  }

  predicate IsEquals(c: char) {
    c == '='
  }

  function TrimStart(s: string, drop: char -> bool): (r: string)
    ensures r != [] ==> !drop(r[0])
    ensures |r| <= |s| && r == s[|s| - |r|..]
  {
    if s != [] && drop(s[0]) then TrimStart(s[1..], drop) else s
  }

  function TrimEnd(s: string, drop: char -> bool): (r: string)
    ensures r != [] ==> !drop(r[|r| - 1])
    ensures |r| <= |s| && r == s[..|r|]
  {
    if s != [] && drop(s[|s| - 1]) then TrimEnd(s[..|s| - 1], drop) else s
  }

  function Trim(s: string, drop: char -> bool): (r: string)
    ensures r != [] ==> !drop(r[0]) && !drop(r[|r| - 1])
    ensures forall c :: c in r ==> c in s
  {
    TrimEnd(TrimStart(s, drop), drop)
  }

  /** The text around the first character that `at` accepts. */
  function SplitOnce(s: string, at: char -> bool): (r: Option<(string, string)>)
    ensures r.Some? ==> forall c :: c in r.value.1 ==> c in s
  {
    if s == [] then None
    else if at(s[0]) then Some(([], s[1..]))
    else
      match SplitOnce(s[1..], at)
      case None => None
      case Some((front, back)) => Some(([s[0]] + front, back))
  }

  // ----- Parsing

  /** A parameter: its key and its value without surrounding blanks and quotes. */
  function Parameter(piece: string): (r: Option<(string, string)>)
    ensures r.Some? ==> forall c :: c in r.value.1 ==> c in piece
    ensures r.Some? && r.value.1 != [] ==> !IsQuote(r.value.1[0]) && !IsQuote(r.value.1[|r.value.1| - 1])
  {
    match SplitOnce(Trim(piece, White), IsEquals)
    case None => None
    case Some((key, val)) => Some((TrimEnd(key, White), Trim(TrimStart(val, White), IsQuote)))
  }

  /** The parameters after the scheme, when the scheme is the right one. */
  function Pieces(scheme: string, value: string): Option<seq<string>> {
    match SplitOnce(TrimStart(value, White), AsciiWhite)
    case None => None
    case Some((word, rest)) => if word != scheme then None else Some(Split(rest, ','))
  }

  type Parser = string -> Option<(string, string)>

  /** What the parameters yield when `ticket` and `nonce` were seen so far; the first point at which both are
      known decides, a piece that is no parameter before that point refuses the header. */
  function Collect(w: Words, parse: Parser, pieces: seq<string>, ticket: Option<string>, nonce: Option<string>): Option<Authorization>
    decreases |pieces|
  {
    if pieces == [] then None
    else
      match parse(pieces[0])
      case None => None
      case Some((key, val)) =>
        if key != w.ticket && key != w.nonce then Collect(w, parse, pieces[1..], ticket, nonce)
        else
          var t := if key == w.ticket then Some(val) else ticket;
          var n := if key == w.ticket then nonce else Some(val);
          if t.Some? && n.Some? then Some(Authorization(t.value, n.value)) else Collect(w, parse, pieces[1..], t, n)
  }

  function Parsed(w: Words, value: string): Option<Authorization> {
    match Pieces(w.scheme, value)
    case None => None
    case Some(pieces) => Collect(w, Parameter, pieces, None, None)
  }

  method CollectAll(w: Words, parse: Parser, pieces: seq<string>) returns (r: Option<Authorization>)
    ensures r == Collect(w, parse, pieces, None, None)
  {
    var ticket: Option<string>, nonce: Option<string> := None, None;
    for i := 0 to |pieces|
      invariant Collect(w, parse, pieces, None, None) == Collect(w, parse, pieces[i..], ticket, nonce)
      invariant ticket.None? || nonce.None?
    {
      assert pieces[i..][1..] == pieces[i + 1..];
      var parameter := parse(pieces[i]);
      if parameter.None? {
        return None;
      }
      var (key, val) := parameter.value;
      if key == w.ticket {
        ticket := Some(val);
      } else if key == w.nonce {
        nonce := Some(val);
      } else {
        continue;
      }
      if ticket.Some? && nonce.Some? {
        return Some(Authorization(ticket.value, nonce.value));
      }
    }
    return None;
  }

  /** `Authorization::parse`. */
  method ParseAuthorization(value: string) returns (r: Option<Authorization>)
    ensures r == Parsed(WORDS, value)
  {
    var pieces := Pieces(WORDS.scheme, value);
    if pieces.None? {
      return None;
    }
    r := CollectAll(WORDS, Parameter, pieces.value);
  }

  function CollectNonce(w: Words, parse: Parser, pieces: seq<string>): Option<string>
    decreases |pieces|
  {
    if pieces == [] then None
    else
      match parse(pieces[0])
      case None => None
      case Some((key, val)) => if key == w.nonce then Some(val) else CollectNonce(w, parse, pieces[1..])
  }

  function ParsedNonce(w: Words, value: string): Option<string> {
    match Pieces(w.scheme, value)
    case None => None
    case Some(pieces) => CollectNonce(w, Parameter, pieces)
  }

  method FindNonce(w: Words, parse: Parser, pieces: seq<string>) returns (r: Option<string>)
    ensures r == CollectNonce(w, parse, pieces)
  {
    for i := 0 to |pieces|
      invariant CollectNonce(w, parse, pieces) == CollectNonce(w, parse, pieces[i..])
    {
      assert pieces[i..][1..] == pieces[i + 1..];
      var parameter := parse(pieces[i]);
      if parameter.None? {
        return None;
      }
      if parameter.value.0 == w.nonce {
        return Some(parameter.value.1);
      }
    }
    return None;
  }

  /** `WWWAuthenticate::parse`. */
  method ParseNonce(value: string) returns (r: Option<string>)
    ensures r == ParsedNonce(WORDS, value)
  {
    var pieces := Pieces(WORDS.scheme, value);
    if pieces.None? {
      return None;
    }
    r := FindNonce(WORDS, Parameter, pieces.value);
  }

  // ----- Printing

  function Quoted(val: string): string {
    ['\"'] + val + ['\"']
  }

  function Assigned(key: string, val: string): string {
    key + ['='] + Quoted(val)
  }

  function Printed(w: Words, a: Authorization): string {
    w.scheme + [' '] + (Assigned(w.ticket, a.ticket) + [','] + ([' '] + Assigned(w.nonce, a.nonce)))
  }

  function PrintedNonce(w: Words, nonce: string): string {
    w.scheme + [' '] + Assigned(w.nonce, nonce)
  }

  // ----- Round trips

  /** A value a header can carry: no comma, and no quote at either end. */
  predicate Carried(val: string) {
    ',' !in val && (val != [] ==> !IsQuote(val[0]) && !IsQuote(val[|val| - 1]))
  }

  /** A word without blanks and without the characters the syntax uses. */
  predicate Word(s: string) {
    s != [] && forall c :: c in s ==> !White(c) && !AsciiWhite(c) && c !in {'=', ',', '\"'}
  }

  predicate WordsFit(w: Words) {
    Word(w.scheme) && Word(w.ticket) && Word(w.nonce) && w.ticket != w.nonce
  }

  /** The parser only yields values that can be carried. */
  ghost predicate YieldsCarried(parse: Parser, pieces: seq<string>) {
    forall i :: 0 <= i < |pieces| && parse(pieces[i]).Some? ==> Carried(parse(pieces[i]).value.1)
  }

  lemma {:induction false} CollectIsCarried(w: Words, parse: Parser, pieces: seq<string>, ticket: Option<string>, nonce: Option<string>)
    requires YieldsCarried(parse, pieces)
    requires (ticket.Some? ==> Carried(ticket.value)) && (nonce.Some? ==> Carried(nonce.value))
    ensures var r := Collect(w, parse, pieces, ticket, nonce);
            r.Some? ==> Carried(r.value.ticket) && Carried(r.value.nonce)
    decreases |pieces|
  {
    if pieces != [] && parse(pieces[0]).Some? {
      var (key, val) := parse(pieces[0]).value;
      if key == w.ticket {
        CollectIsCarried(w, parse, pieces[1..], Some(val), nonce);
      } else if key == w.nonce {
        CollectIsCarried(w, parse, pieces[1..], ticket, Some(val));
      } else {
        CollectIsCarried(w, parse, pieces[1..], ticket, nonce);
      }
    }
  }

  lemma {:induction false} NonceIsCarried(w: Words, parse: Parser, pieces: seq<string>)
    requires YieldsCarried(parse, pieces)
    ensures CollectNonce(w, parse, pieces).Some? ==> Carried(CollectNonce(w, parse, pieces).value)
    decreases |pieces|
  {
    if pieces != [] {
      NonceIsCarried(w, parse, pieces[1..]);
    }
  }

  lemma SplitYieldsCarried(rest: string)
    ensures YieldsCarried(Parameter, Split(rest, ','))
  {
  }

  lemma {:induction false} SplitOnceAt(front: string, c: char, back: string, at: char -> bool)
    requires at(c) && forall d :: d in front ==> !at(d)
    ensures SplitOnce(front + [c] + back, at) == Some((front, back))
  {
    var s := front + [c] + back;
    if front == [] {
      assert s[1..] == back;
    } else {
      assert front[0] in front && s[1..] == front[1..] + [c] + back;
      SplitOnceAt(front[1..], c, back, at);
      assert front == [front[0]] + front[1..];
    }
  }

  lemma {:induction false} TrimStartPast(left: string, rest: string, drop: char -> bool)
    requires (forall c :: c in left ==> drop(c)) && (rest != [] ==> !drop(rest[0]))
    ensures TrimStart(left + rest, drop) == rest
  {
    if left == [] {
      assert left + rest == rest;
    } else {
      assert left[0] in left && (left + rest)[1..] == left[1..] + rest;
      TrimStartPast(left[1..], rest, drop);
    }
  }

  lemma {:induction false} TrimEndPast(rest: string, right: string, drop: char -> bool)
    requires (forall c :: c in right ==> drop(c)) && (rest != [] ==> !drop(rest[|rest| - 1]))
    ensures TrimEnd(rest + right, drop) == rest
  {
    if right == [] {
      assert rest + right == rest;
    } else {
      var n := |right| - 1;
      assert right[n] in right && (rest + right)[..|rest| + n] == rest + right[..n];
      TrimEndPast(rest, right[..n], drop);
    }
  }

  lemma TrimAround(left: string, core: string, right: string, drop: char -> bool)
    requires forall c :: c in left || c in right ==> drop(c)
    requires core != [] ==> !drop(core[0]) && !drop(core[|core| - 1])
    ensures Trim(left + core + right, drop) == core
  {
    assert left + core + right == left + (core + right);
    if core == [] {
      assert left + (core + right) == (left + right) + [];
      TrimStartPast(left + right, [], drop);
    } else {
      TrimStartPast(left, core + right, drop);
      TrimEndPast(core, right, drop);
    }
  }

  lemma ParameterOf(piece: string, core: string, key: string, quoted: string, val: string)
    requires Trim(piece, White) == core && SplitOnce(core, IsEquals) == Some((key, quoted))
    requires TrimEnd(key, White) == key && TrimStart(quoted, White) == quoted && Trim(quoted, IsQuote) == val
    ensures Parameter(piece) == Some((key, val))
  {
  }

  predicate Blank(s: string) {
    forall c :: c in s ==> White(c)
  }

  lemma TrimAssigned(left: string, key: string, val: string)
    requires Word(key) && Blank(left)
    ensures Trim(left + Assigned(key, val), White) == Assigned(key, val)
  {
    var core := Assigned(key, val);
    assert core[0] == key[0] && key[0] in key;
    assert core[|core| - 1] == '\"';
    TrimAround(left, core, [], White);
    assert left + core + [] == left + core;
  }

  lemma KeyStays(key: string)
    requires Word(key)
    ensures TrimEnd(key, White) == key
  {
    assert key[|key| - 1] in key;
  }

  lemma QuotedStays(val: string)
    ensures TrimStart(Quoted(val), White) == Quoted(val)
  {
    assert Quoted(val)[0] == '\"';
  }

  lemma Unquoted(val: string)
    requires Carried(val)
    ensures Trim(Quoted(val), IsQuote) == val
  {
    TrimAround(['\"'], val, ['\"'], IsQuote);
  }

  lemma AssignedSplits(key: string, val: string)
    requires Word(key)
    ensures SplitOnce(Assigned(key, val), IsEquals) == Some((key, Quoted(val)))
  {
    SplitOnceAt(key, '=', Quoted(val), IsEquals);
  }

  /** A printed parameter, with or without blanks before it, parses to its key and value. */
  lemma ParameterPrinted(left: string, key: string, val: string)
    requires Word(key) && Carried(val) && Blank(left)
    ensures Parameter(left + Assigned(key, val)) == Some((key, val))
  {
    TrimAssigned(left, key, val);
    AssignedSplits(key, val);
    KeyStays(key);
    QuotedStays(val);
    Unquoted(val);
    ParameterOf(left + Assigned(key, val), Assigned(key, val), key, Quoted(val), val);
  }

  lemma PiecesOfScheme(scheme: string, rest: string)
    requires Word(scheme)
    ensures Pieces(scheme, scheme + [' '] + rest) == Some(Split(rest, ','))
  {
    assert (scheme + [' '] + rest)[0] == scheme[0] && scheme[0] in scheme;
    SplitOnceAt(scheme, ' ', rest, AsciiWhite);
  }

  lemma NoComma(key: string, val: string)
    requires Word(key)
    ensures ',' in Assigned(key, val) <==> ',' in val
  {
  }

  lemma CollectTwo(w: Words, parse: Parser, first: string, second: string, a: Authorization)
    requires w.ticket != w.nonce
    requires parse(first) == Some((w.ticket, a.ticket)) && parse(second) == Some((w.nonce, a.nonce))
    ensures Collect(w, parse, [first, second], None, None) == Some(a)
  {
    assert [first, second][1..] == [second];
  }

  lemma PiecesPrinted(w: Words, a: Authorization)
    requires WordsFit(w) && Carried(a.ticket) && Carried(a.nonce)
    ensures Pieces(w.scheme, Printed(w, a)) == Some([Assigned(w.ticket, a.ticket), [' '] + Assigned(w.nonce, a.nonce)])
  {
    var first, second := Assigned(w.ticket, a.ticket), [' '] + Assigned(w.nonce, a.nonce);
    PiecesOfScheme(w.scheme, first + [','] + second);
    NoComma(w.ticket, a.ticket);
    NoComma(w.nonce, a.nonce);
    SplitAfter(first, second, ',');
    SplitPlain(second, ',');
    assert [first] + [second] == [first, second];
  }

  lemma ParsedBy(w: Words, value: string, pieces: seq<string>)
    requires Pieces(w.scheme, value) == Some(pieces)
    ensures Parsed(w, value) == Collect(w, Parameter, pieces, None, None)
  {
  }

  lemma PrintedParses(w: Words, a: Authorization)
    requires WordsFit(w) && Carried(a.ticket) && Carried(a.nonce)
    ensures Parsed(w, Printed(w, a)) == Some(a)
  {
    var first, second := Assigned(w.ticket, a.ticket), [' '] + Assigned(w.nonce, a.nonce);
    PiecesPrinted(w, a);
    ParsedBy(w, Printed(w, a), [first, second]);
    ParameterPrinted([], w.ticket, a.ticket);
    assert [] + first == first;
    ParameterPrinted([' '], w.nonce, a.nonce);
    CollectTwo(w, Parameter, first, second, a);
  }

  lemma RoundTripIff(w: Words, a: Authorization)
    requires WordsFit(w)
    ensures Parsed(w, Printed(w, a)) == Some(a) <==> Carried(a.ticket) && Carried(a.nonce)
  {
    if Carried(a.ticket) && Carried(a.nonce) {
      PrintedParses(w, a);
    } else {
      var rest := Assigned(w.ticket, a.ticket) + [','] + ([' '] + Assigned(w.nonce, a.nonce));
      PiecesOfScheme(w.scheme, rest);
      SplitYieldsCarried(rest);
      CollectIsCarried(w, Parameter, Split(rest, ','), None, None);
    }
  }

  lemma NonceRoundTripIff(w: Words, nonce: string)
    requires WordsFit(w)
    ensures ParsedNonce(w, PrintedNonce(w, nonce)) == Some(nonce) <==> Carried(nonce)
  {
    var rest := Assigned(w.nonce, nonce);
    PiecesOfScheme(w.scheme, rest);
    SplitYieldsCarried(rest);
    NonceIsCarried(w, Parameter, Split(rest, ','));
    if Carried(nonce) {
      NoComma(w.nonce, nonce);
      SplitPlain(rest, ',');
      ParameterPrinted([], w.nonce, nonce);
      assert [] + rest == rest;
    }
  }

  lemma WordsOfTheHeader()
    ensures WordsFit(WORDS)
  {
  }

  /** Parsing a printed `authorization` header gives back its ticket and nonce exactly when both can be carried. */
  lemma AuthorizationRoundTrip(a: Authorization)
    ensures Parsed(WORDS, Printed(WORDS, a)) == Some(a) <==> Carried(a.ticket) && Carried(a.nonce)
  {
    WordsOfTheHeader();
    RoundTripIff(WORDS, a);
  }

  /** The same for `www-authenticate`. */
  lemma NonceRoundTrip(nonce: string)
    ensures ParsedNonce(WORDS, PrintedNonce(WORDS, nonce)) == Some(nonce) <==> Carried(nonce)
  {
    WordsOfTheHeader();
    NonceRoundTripIff(WORDS, nonce);
  }

  /** What goes over the wire, letter by letter. */
  lemma HeaderText(a: Authorization)
    ensures Printed(WORDS, a) == "drop ticket=\"" + a.ticket + "\", nonce=\"" + a.nonce + "\""
    ensures PrintedNonce(WORDS, a.nonce) == "drop nonce=\"" + a.nonce + "\""
  {
    assert Printed(WORDS, a) == "drop ticket=\"" + (a.ticket + "\", nonce=\"" + a.nonce + "\"");
    assert "drop ticket=\"" + (a.ticket + "\", nonce=\"" + a.nonce + "\"") == "drop ticket=\"" + a.ticket + "\", nonce=\"" + a.nonce + "\"";
  }

  lemma CollectTurned(w: Words, parse: Parser, first: string, second: string, a: Authorization)
    requires w.ticket != w.nonce
    requires parse(first) == Some((w.nonce, a.nonce)) && parse(second) == Some((w.ticket, a.ticket))
    ensures Collect(w, parse, [first, second], None, None) == Some(a)
  {
    assert [first, second][1..] == [second];
  }

  predicate Quotes(s: string) {
    s != [] && forall c :: c in s ==> IsQuote(c)
  }

  lemma LooseCore(before: string, key: string, gap: string, quoted: string, after: string)
    requires Word(key) && Blank(before) && Blank(gap) && Blank(after) && quoted != [] && !White(quoted[|quoted| - 1])
    ensures Trim(before + (key + gap + ['='] + quoted) + after, White) == key + gap + ['='] + quoted
    ensures SplitOnce(key + gap + ['='] + quoted, IsEquals) == Some((key + gap, quoted))
    ensures TrimEnd(key + gap, White) == key
  {
    var core := key + gap + ['='] + quoted;
    assert core[0] == key[0] && key[0] in key && core[|core| - 1] == quoted[|quoted| - 1];
    TrimAround(before, core, after, White);
    SplitOnceAt(key + gap, '=', quoted, IsEquals);
    assert key[|key| - 1] in key;
    TrimEndPast(key, gap, White);
  }

  lemma LooseValue(space: string, open: string, val: string, close: string)
    requires Carried(val) && Quotes(open) && Quotes(close) && Blank(space)
    ensures TrimStart(space + (open + val + close), White) == open + val + close
    ensures Trim(open + val + close, IsQuote) == val
  {
    assert (open + val + close)[0] == open[0] && open[0] in open;
    TrimStartPast(space, open + val + close, White);
    TrimAround(open, val, close, IsQuote);
  }

  /** Blanks around a parameter, around its equals sign, and more quotes than one do not matter. */
  lemma ParameterLoosely(before: string, key: string, gap: string, space: string, open: string, val: string, close: string, after: string)
    requires Word(key) && Carried(val) && Quotes(open) && Quotes(close)
    requires Blank(before) && Blank(gap) && Blank(space) && Blank(after)
    ensures Parameter(before + (key + gap + ['='] + (space + (open + val + close))) + after) == Some((key, val))
  {
    var quoted := space + (open + val + close);
    assert quoted[|quoted| - 1] == close[|close| - 1] && close[|close| - 1] in close;
    LooseCore(before, key, gap, quoted, after);
    LooseValue(space, open, val, close);
    LooseParameter(before + (key + gap + ['='] + quoted) + after, key, gap, quoted, open + val + close, val);
  }

  lemma LooseParameter(piece: string, key: string, gap: string, quoted: string, inner: string, val: string)
    requires Trim(piece, White) == key + gap + ['='] + quoted
    requires SplitOnce(key + gap + ['='] + quoted, IsEquals) == Some((key + gap, quoted)) && TrimEnd(key + gap, White) == key
    requires TrimStart(quoted, White) == inner && Trim(inner, IsQuote) == val
    ensures Parameter(piece) == Some((key, val))
  {
  }

  /** A parameter of another name is passed over, wherever it stands. */
  lemma OthersPassedOver(w: Words, parse: Parser, other: string, pieces: seq<string>, ticket: Option<string>, nonce: Option<string>)
    requires parse(other).Some? && parse(other).value.0 != w.ticket && parse(other).value.0 != w.nonce
    ensures Collect(w, parse, [other] + pieces, ticket, nonce) == Collect(w, parse, pieces, ticket, nonce)
    ensures CollectNonce(w, parse, [other] + pieces) == CollectNonce(w, parse, pieces)
  {
    assert ([other] + pieces)[1..] == pieces;
  }

  /** A piece that is no parameter refuses the header, and a ticket that comes again before the nonce replaces the
      first, as a nonce does before the ticket. */
  lemma CollectOrder(w: Words, parse: Parser, piece: string, pieces: seq<string>, ticket: Option<string>, nonce: Option<string>)
    requires w.ticket != w.nonce
    ensures parse(piece).None? ==> Collect(w, parse, [piece] + pieces, ticket, nonce).None?
                                   && CollectNonce(w, parse, [piece] + pieces).None?
    ensures parse(piece).Some? && parse(piece).value.0 == w.ticket ==>
              Collect(w, parse, [piece] + pieces, ticket, nonce)
              == if nonce.Some? then Some(Authorization(parse(piece).value.1, nonce.value))
                 else Collect(w, parse, pieces, Some(parse(piece).value.1), None)
    ensures parse(piece).Some? && parse(piece).value.0 == w.nonce ==>
              Collect(w, parse, [piece] + pieces, ticket, nonce)
              == if ticket.Some? then Some(Authorization(ticket.value, parse(piece).value.1))
                 else Collect(w, parse, pieces, None, Some(parse(piece).value.1))
  {
    assert ([piece] + pieces)[1..] == pieces;
  }

  /** Another scheme is refused; blanks before the scheme are not. */
  lemma SchemeDecides(scheme: string, before: string, word: string, rest: string)
    requires Word(word) && Blank(before)
    ensures Pieces(scheme, before + (word + [' '] + rest)) == if word == scheme then Some(Split(rest, ',')) else None
  {
    assert (word + [' '] + rest)[0] == word[0] && word[0] in word;
    TrimStartPast(before, word + [' '] + rest, White);
    SplitOnceAt(word, ' ', rest, AsciiWhite);
  }

  /** The order of the two parameters does not matter to the parser. */
  lemma TurnedParses(w: Words, a: Authorization)
    requires WordsFit(w) && Carried(a.ticket) && Carried(a.nonce)
    ensures Parsed(w, w.scheme + [' '] + (Assigned(w.nonce, a.nonce) + [','] + Assigned(w.ticket, a.ticket))) == Some(a)
  {
    var first, second := Assigned(w.nonce, a.nonce), Assigned(w.ticket, a.ticket);
    PiecesOfScheme(w.scheme, first + [','] + second);
    NoComma(w.ticket, a.ticket);
    NoComma(w.nonce, a.nonce);
    SplitAfter(first, second, ',');
    SplitPlain(second, ',');
    assert [first] + [second] == [first, second];
    ParsedBy(w, w.scheme + [' '] + (first + [','] + second), [first, second]);
    ParameterPrinted([], w.nonce, a.nonce);
    assert [] + first == first;
    ParameterPrinted([], w.ticket, a.ticket);
    assert [] + second == second;
    CollectTurned(w, Parameter, first, second, a);
  }

  /** The alphabet of section 4 of RFC 4648, with its padding character. */
  predicate Base64(val: string) {
    forall c :: c in val ==>
      'A' <= c <= 'Z' || 'a' <= c <= 'z' || '0' <= c <= '9' || c in {'+', '/', '='}
  }

  /** Tickets and nonces are sent in base64, which is always carried. */
  lemma Base64RoundTrip(a: Authorization)
    requires Base64(a.ticket) && Base64(a.nonce)
    ensures Parsed(WORDS, Printed(WORDS, a)) == Some(a)
  {
    Base64IsCarried(a.ticket);
    Base64IsCarried(a.nonce);
    AuthorizationRoundTrip(a);
  }

  lemma Base64IsCarried(val: string)
    requires Base64(val)
    ensures Carried(val)
  {
    if val != [] {
      assert val[0] in val && val[|val| - 1] in val;
    }
  }
}
