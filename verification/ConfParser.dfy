/** The configuration format line by line: what a file means, and that printing and decorating a table keep it. */
module ConfFormat {
  import opened Seqs

  const MAX_CONF_FILE_SIZE := 1024 * 1024 * 2
  const MAX_LINE_LEN := 1024
  const CONF_STRING_MAX_LEN := 128
  const CONF_MAX_NODE_NUM := 64
  const LINE_BUFFER := 256
  const SWITCH_BUFFER := 125
  const CONF_SWITCH := "CONF_SWITCH"

  datatype Option<T> = None | Some(value: T)

  type Pair = (string, string)

  datatype Mode = Mode(name: string, pairs: seq<Pair>)

  /** The table and the number of modes put into it. */
  datatype Conf = Conf(table: map<string, seq<Pair>>, count: nat)

  /** A block makes a mode or none; a mode line too long for the buffer it is copied to has no defined outcome. */
  datatype Block = NoMode | Made(mode: Mode) | BlockOverrun

  datatype Outcome = Done(conf: Conf) | ClosedAll | Overrun

  // ---- Strings ----

  predicate IsBlank(c: char) {
    c == ' ' || c == '\t'
  }

  /** Where c first stands in s, or the length of s. */
  function Index(s: string, c: char): (i: nat)
    ensures i <= |s| && (i < |s| ==> s[i] == c) && forall k :: 0 <= k < i ==> s[k] != c
  {
    if |s| == 0 || s[0] == c then 0 else 1 + Index(s[1..], c)
  }

  /** A C string ends at its first NUL. */
  function Cut(s: string): (r: string)
    ensures |r| <= |s|
  {
    s[..Index(s, '\0')]
  }

  function TrimLeft(s: string): (r: string)
    ensures |r| <= |s|
  {
    if |s| > 0 && IsBlank(s[0]) then TrimLeft(s[1..]) else s
  }

  /** The characters up to the first blank. */
  function Word(s: string): string {
    if |s| == 0 || IsBlank(s[0]) then [] else [s[0]] + Word(s[1..])
  }

  function Lines(text: string): (r: seq<string>)
    ensures |r| > 0 && forall i :: 0 <= i < |r| ==> '\n' !in r[i]
    decreases |text|
  {
    var i := Index(text, '\n');
    if i == |text| then [text] else [text[..i]] + Lines(text[i + 1..])
  }

  function Unlines(lines: seq<string>): string {
    if |lines| == 0 then [] else lines[0] + "\n" + Unlines(lines[1..])
  }

  // ---- One line ----

  /** The part of a line before a comment: none if only blanks stand before it. */
  function ValidLength(line: string): (n: nat)
    ensures n <= |line|
  {
    var s := Cut(line);
    var i := Index(s, '#');
    if i == |s| then |line| else if TrimLeft(s[..i]) == [] then 0 else i
  }

  /** The first word, without a carriage return at its end, if it is short enough. */
  function GetString(s: string): Option<string> {
    var w := Word(TrimLeft(Cut(s)));
    if |w| >= CONF_STRING_MAX_LEN - 1 then None
    else Some(if |w| > 0 && w[|w| - 1] == '\r' then w[..|w| - 1] else w)
  }

  function PairOf(line: string): Option<Pair> {
    if |line| >= LINE_BUFFER then None
    else
      var s := Cut(line);
      var i := Index(s, '=');
      if i == |s| then None
      else
        var name := GetString(s[..i]);
        if name.None? then None
        else
          var value := GetString(s[i + 1..]);
          if value.None? then None else Some((name.value, value.value))
  }

  predicate Contains(s: string, t: string) {
    t <= s || (|s| > 0 && Contains(s[1..], t))
  }

  /** Whether a line after its @ switches the configuration off; only its first 125 characters count. */
  predicate SwitchOff(s: string) {
    var b := if |s| > SWITCH_BUFFER then s[..SWITCH_BUFFER] else s;
    Contains(Cut(b), CONF_SWITCH) && ZeroValue(b)
  }

  /** After the first equals sign and blanks there is a 0. */
  predicate ZeroValue(b: string) {
    var i := Index(b, '=');
    i < |b| && Starts(TrimLeft(b[i + 1..]), '0')
  }

  /** The switch's name stands at k, before any NUL. */
  predicate NameAt(b: string, k: int) {
    StandsAt(b, "CONF_SWITCH", k) && forall n :: 0 <= n < k + 11 ==> b[n] != '\0'
  }

  predicate StandsAt(s: string, t: string, k: int) {
    0 <= k && k + |t| <= |s| && s[k..k + |t|] == t
  }

  /** The first equals sign stands at i, and the first character behind it that is no blank is a 0 at j. */
  predicate ZeroAt(b: string, i: int, j: int) {
    && 0 <= i < j < |b| && b[i] == '=' && b[j] == '0'
    && (forall n :: 0 <= n < i ==> b[n] != '=') && forall n :: i < n < j ==> b[n] == ' ' || b[n] == '\t'
  }

  lemma {:induction false} ContainsExactly(s: string, t: string)
    ensures Contains(s, t) <==> exists k :: StandsAt(s, t, k)
  {
    if t <= s {
      assert StandsAt(s, t, 0);
    } else if |s| > 0 {
      ContainsExactly(s[1..], t);
      forall k ensures StandsAt(s, t, k + 1) <==> k >= -1 && (k == -1 ==> t <= s) && (k >= 0 ==> StandsAt(s[1..], t, k)) {
        assert k >= 0 && k + 1 + |t| <= |s| ==> s[1..][k..k + |t|] == s[k + 1..k + 1 + |t|];
        assert k == -1 && |t| <= |s| ==> s[0..0 + |t|] == s[..|t|];
      }
      if k :| StandsAt(s, t, k) {
        assert StandsAt(s, t, (k - 1) + 1);
        assert StandsAt(s[1..], t, k - 1);
      }
      if k :| StandsAt(s[1..], t, k) {
        assert StandsAt(s, t, k + 1);
      }
    } else {
      assert forall k :: StandsAt(s, t, k) ==> t == [];
    }
  }

  lemma NamedExactly(b: string)
    ensures Contains(Cut(b), CONF_SWITCH) <==> exists k :: NameAt(b, k)
  {
    var c := Cut(b);
    ContainsExactly(c, CONF_SWITCH);
    if k :| StandsAt(c, CONF_SWITCH, k) {
      assert b[k..k + 11] == c[k..k + 11];
      assert NameAt(b, k);
    }
    if k :| NameAt(b, k) {
      assert k + 11 <= |c| && b[k..k + 11] == c[k..k + 11];
      assert StandsAt(c, CONF_SWITCH, k);
    }
  }

  lemma ZeroExactly(b: string)
    ensures ZeroValue(b) <==> exists i, j :: ZeroAt(b, i, j)
  {
    var i := Index(b, '=');
    if i < |b| {
      var pad, rest := TrimSplit(b[i + 1..]);
      var j := i + 1 + |pad|;
      assert b[i + 1..] == pad + rest;
      assert forall n :: i < n < j ==> b[n] == pad[n - i - 1];
      assert |rest| > 0 ==> b[j] == rest[0];
      if ZeroValue(b) {
        assert ZeroAt(b, i, j);
      }
      if i', j' :| ZeroAt(b, i', j') {
        assert i' == i && j' == j;
      }
    }
  }

  /**
   * In terms of characters: a line switches the configuration off exactly if among its first 125 characters behind
   * the @ the switch's name stands before any NUL, and the first equals sign is followed by blanks and a 0.
   */
  lemma SwitchOffExactly(s: string)
    ensures var b := if |s| > 125 then s[..125] else s;
      SwitchOff(s) <==> (exists k :: NameAt(b, k)) && exists i, j :: ZeroAt(b, i, j)
  {
    var b := if |s| > 125 then s[..125] else s;
    NamedExactly(b);
    ZeroExactly(b);
    hide Contains, Cut, ZeroValue;
  }

  /** A line without the name, or without an equals sign, switches nothing off. */
  lemma SwitchNeedsBoth(s: string)
    ensures (forall k :: !StandsAt(s, "CONF_SWITCH", k)) ==> !SwitchOff(s)
    ensures '=' !in s ==> !SwitchOff(s)
  {
    SwitchOffExactly(s);
    hide SwitchOff;
    var b := if |s| > 125 then s[..125] else s;
    if k :| NameAt(b, k) {
      assert s[k..k + 11] == b[k..k + 11];
      assert StandsAt(s, "CONF_SWITCH", k);
    }
    if i, j :| ZeroAt(b, i, j) {
      assert s[i] == '=';
    }
  }

  lemma NameStands(pre: string, tail: string)
    requires '\0' !in pre
    ensures NameAt(pre + "CONF_SWITCH" + tail, |pre|)
  {
    var name, b := "CONF_SWITCH", pre + "CONF_SWITCH" + tail;
    assert '\0' !in name;
    assert b[|pre|..|pre| + |name|] == name;
    assert forall n :: 0 <= n < |pre| ==> b[n] == pre[n];
    assert forall n :: |pre| <= n < |pre| + |name| ==> b[n] == name[n - |pre|];
  }

  lemma ZeroStands(left: string, gap: string, c: char, tail: string)
    requires '=' !in left && Blanks(gap) && !IsBlank(c)
    ensures (exists i, j :: ZeroAt(left + "=" + gap + [c] + tail, i, j)) <==> c == '0'
  {
    var b, i, j := left + "=" + gap + [c] + tail, |left|, |left| + 1 + |gap|;
    assert forall n :: 0 <= n < i ==> b[n] == left[n];
    assert forall n :: i < n < j ==> b[n] == gap[n - i - 1];
    assert b[i] == '=' && b[j] == c;
    if c == '0' {
      assert ZeroAt(b, i, j);
    }
    if i', j' :| ZeroAt(b, i', j') {
      assert i' == i && j' == j;
    }
  }

  /** What stands at the value decides: a 0 switches off, anything else does not. */
  lemma SwitchValueDecides(pre: string, mid: string, gap: string, c: char, rest: string)
    requires '=' !in pre && '\0' !in pre && '=' !in mid && Blanks(gap) && !IsBlank(c)
    requires |pre| + 11 + |mid| + 1 + |gap| < 125
    ensures SwitchOff(pre + "CONF_SWITCH" + mid + "=" + gap + [c] + rest) <==> c == '0'
  {
    hide SwitchOff, NameAt, ZeroAt, Blanks, IsBlank;
    var left := pre + "CONF_SWITCH" + mid;
    var s := left + "=" + gap + [c] + rest;
    SwitchOffExactly(s);
    var n := 125 - |left| - |gap| - 2;
    var tail := if |rest| > n then rest[..n] else rest;
    var b := left + "=" + gap + [c] + tail;
    assert b == if |s| > 125 then s[..125] else s;
    assert b == pre + "CONF_SWITCH" + (mid + "=" + gap + [c] + tail);
    NameStands(pre, mid + "=" + gap + [c] + tail);
    assert '=' !in "CONF_SWITCH" && '=' !in left;
    ZeroStands(left, gap, c, tail);
  }

  // ---- Blocks and files ----

  function ResultOf(made: Option<Mode>): Block {
    if made.None? then NoMode else Made(made.value)
  }

  /** The lines of a block after those that made what there is of the mode. */
  function BlockOf(lines: seq<string>, made: Option<Mode>): Block {
    if |lines| == 0 || |lines[0]| >= MAX_LINE_LEN then ResultOf(made)
    else
      var n := ValidLength(lines[0]);
      var part := lines[0][..n];
      if n == 0 then BlockOf(lines[1..], made)
      else if made.None? then
        if n >= LINE_BUFFER then BlockOverrun
        else
          var name := GetString(part);
          if name.None? then NoMode else BlockOf(lines[1..], Some(Mode(name.value, [])))
      else
        var pair := PairOf(part);
        if pair.None? then NoMode
        else
          var mode := Mode(made.value.name, made.value.pairs + [pair.value]);
          if |mode.pairs| >= CONF_MAX_NODE_NUM then Made(mode) else BlockOf(lines[1..], Some(mode))
  }

  /** Outside of any block, or inside one with the lines so far. */
  datatype Scan = Outside | Inside(block: seq<string>)

  function Collected(scan: Scan, line: string): Scan {
    if scan.Outside? then Outside else Inside(scan.block + [line])
  }

  function Added(conf: Conf, mode: Mode): Conf {
    Conf(conf.table[mode.name := mode.pairs], conf.count + 1)
  }

  predicate Starts(s: string, c: char) {
    |s| > 0 && s[0] == c
  }

  function Parse(lines: seq<string>, scan: Scan, conf: Conf): Outcome {
    if |lines| == 0 then Done(conf)
    else
      var t := TrimLeft(lines[0]);
      if Starts(t, '@') then
        if SwitchOff(t[1..]) then ClosedAll else Parse(lines[1..], Collected(scan, lines[0]), conf)
      else if Starts(t, '-') && scan.Inside? then
        if "-end" <= t then
          match BlockOf(scan.block, None)
          case BlockOverrun => Overrun
          case NoMode => Parse(lines[1..], Outside, conf)
          case Made(mode) => Parse(lines[1..], Outside, Added(conf, mode))
        else Done(conf)
      else if Starts(t, '-') then Parse(lines[1..], Inside([t[1..]]), conf)
      else Parse(lines[1..], Collected(scan, lines[0]), conf)
  }

  const EMPTY := Conf(map[], 0)

  /** The lines of a file; only its first 2 MB are read. */
  function FileLines(text: string): seq<string> {
    Lines(if |text| > MAX_CONF_FILE_SIZE then text[..MAX_CONF_FILE_SIZE] else text)
  }

  /** What the file means. */
  function Meaning(text: string): Outcome {
    Parse(FileLines(text), Outside, EMPTY)
  }

  // ---- Lines of a text ----

  lemma IndexIs(s: string, c: char, i: nat)
    requires i <= |s| && (i < |s| ==> s[i] == c) && forall k :: 0 <= k < i ==> s[k] != c
    ensures Index(s, c) == i
  {
  }

  lemma LinesFirst(a: string, b: string)
    requires '\n' !in a
    ensures Lines(a + "\n" + b) == [a] + Lines(b) && Lines(a) == [a]
  {
    var text := a + "\n" + b;
    IndexIs(text, '\n', |a|);
    IndexIs(a, '\n', |a|);
    assert text[..|a|] == a && text[|a| + 1..] == b;
  }

  predicate NoNewlines(lines: seq<string>) {
    forall i :: 0 <= i < |lines| ==> '\n' !in lines[i]
  }

  lemma {:induction false} LinesOfUnlines(lines: seq<string>, rest: string)
    requires NoNewlines(lines)
    ensures Lines(Unlines(lines) + rest) == lines + Lines(rest)
  {
    hide Lines;
    if |lines| == 0 {
      assert Unlines(lines) + rest == rest;
    } else {
      var more := Unlines(lines[1..]) + rest;
      LinesOfUnlines(lines[1..], rest);
      assert Unlines(lines) + rest == lines[0] + "\n" + more;
      LinesFirst(lines[0], more);
      assert lines == [lines[0]] + lines[1..];
    }
  }

  // ---- Words in a line ----

  predicate Blanks(s: string) {
    forall k :: 0 <= k < |s| ==> IsBlank(s[k])
  }

  /** A word that can be printed and read back. */
  predicate Legal(s: string) {
    && 1 <= |s| <= CONF_STRING_MAX_LEN - 2
    && (forall k :: 0 <= k < |s| ==> !IsBlank(s[k]) && s[k] != '#' && s[k] != '\n' && s[k] != '\0')
    && s[|s| - 1] != '\r'
  }

  lemma {:induction false} TrimBlanks(a: string, s: string)
    requires Blanks(a)
    ensures TrimLeft(a + s) == TrimLeft(s)
    ensures |s| > 0 && !IsBlank(s[0]) ==> TrimLeft(a + s) == s
    ensures TrimLeft(a) == []
  {
    if |a| == 0 {
      assert a + s == s;
    } else {
      TrimBlanks(a[1..], s);
      assert (a + s)[1..] == a[1..] + s;
    }
  }

  lemma {:induction false} WordThen(w: string, s: string)
    requires forall k :: 0 <= k < |w| ==> !IsBlank(w[k])
    requires |s| > 0 ==> IsBlank(s[0])
    ensures Word(w + s) == w
  {
    if |w| == 0 {
      assert w + s == s;
    } else {
      WordThen(w[1..], s);
      assert (w + s)[1..] == w[1..] + s;
    }
  }

  lemma CutPrefix(a: string, b: string)
    requires '\0' !in a
    ensures Cut(a + b) == a + Cut(b)
    ensures Cut(a) == a
  {
    IndexIs(a + b, '\0', |a| + Index(b, '\0'));
    IndexIs(a, '\0', |a|);
  }

  /**
   * What may stand behind a word in its part of a line: nothing, or a blank and anything; before that a carriage
   * return, if it does not make the word too long.
   */
  predicate Ends(w: string, z: string) {
    var rest := if Starts(z, '\r') then z[1..] else z;
    && '\0' !in z && '#' !in z && '\n' !in z
    && (|rest| > 0 ==> IsBlank(rest[0])) && (Starts(z, '\r') ==> |w| < CONF_STRING_MAX_LEN - 2)
  }

  lemma NoNuls(a: string, w: string, b: string)
    requires Blanks(a) && Ends(w, b) && Legal(w)
    ensures '\0' !in a + w + b && '#' !in a + w + b && '\n' !in a + w + b
    ensures '=' !in w && '=' !in b ==> '=' !in a + w + b
  {
  }

  predicate OneWord(w: string) {
    forall k :: 0 <= k < |w| ==> !IsBlank(w[k]) && w[k] != '\0'
  }

  /** Blanks, a word, and what does not belong to it. */
  predicate WordParts(a: string, w: string, z: string) {
    && Blanks(a) && OneWord(w)
    && (|z| > 0 ==> z[0] == '\0' || (IsBlank(z[0]) && |w| > 0))
  }

  /** Every string has these parts. */
  lemma {:induction false} PartsOf(s: string) returns (a: string, w: string, z: string)
    ensures s == a + w + z && WordParts(a, w, z)
  {
    if |s| == 0 || s[0] == '\0' {
      a, w, z := "", "", s;
    } else {
      a, w, z := PartsOf(s[1..]);
      if IsBlank(s[0]) {
        a := [s[0]] + a;
      } else if |a| > 0 || |w| == 0 {
        a, w, z := "", [s[0]], a + w + z;
      } else {
        w := [s[0]] + w;
      }
    }
  }

  /** And GetString finds the word, without a carriage return at its end, exactly if it has less than 127 characters. */
  lemma GetStringExactly(a: string, w: string, z: string)
    requires WordParts(a, w, z)
    ensures GetString(a + w + z)
         == if |w| >= 127 then None else Some(if |w| > 0 && w[|w| - 1] == '\r' then w[..|w| - 1] else w)
  {
    hide TrimLeft, Word;
    BlanksClean(a);
    CutPrefix(a + w, z);
    assert |z| > 0 && z[0] == '\0' ==> Cut(z) == "";
    CutKeepsWord(z);
    hide Cut;
    assert a + w + Cut(z) == a + (w + Cut(z));
    TrimBlanks(a, w + Cut(z));
    WordThen(w, Cut(z));
    assert |w| == 0 ==> w + Cut(z) == "" && TrimLeft("") == "";
  }

  lemma CutKeepsWord(z: string)
    ensures |Cut(z)| > 0 ==> |z| > 0 && z[0] != '\0' && Cut(z)[0] == z[0]
  {
  }

  /** In a line, a legal word between blanks is what GetString finds. */
  lemma GetStringFinds(a: string, w: string, z: string)
    requires Blanks(a) && Legal(w) && Ends(w, z)
    ensures GetString(a + w + z) == Some(w)
  {
    if Starts(z, '\r') {
      GetStringExactly(a, w + "\r", z[1..]);
      assert a + (w + "\r") + z[1..] == a + w + z && (w + "\r")[..|w|] == w;
    } else {
      GetStringExactly(a, w, z);
    }
    hide GetString;
  }

  // ---- Decorated documents ----

  /** What stands behind the last word of a line, then a comment or nothing. */
  datatype Tail = Tail(pad: string, note: string)

  datatype PairLine = PairLine(indent: string, pair: Pair, before: string, after: string, tail: Tail)

  /** A pair, or an empty line or comment line. */
  datatype BodyLine = PairBody(line: PairLine) | Comment(text: string)

  datatype Header = Header(indent: string, gap: string, name: string, tail: Tail)

  /** A whole block, or a line outside of all blocks that opens none and switches nothing off. */
  datatype Item = BlockItem(header: Header, body: seq<BodyLine>, closing: string) | Noise(text: string)

  predicate TailOk(t: Tail) {
    (|t.note| > 0 ==> t.note[0] == '#') && '\n' !in t.note
  }

  function PairCore(p: PairLine): string {
    p.indent + p.pair.0 + p.before + "=" + (p.after + p.pair.1 + p.tail.pad)
  }

  function PairText(p: PairLine): string {
    PairCore(p) + p.tail.note
  }

  predicate LegalName(s: string) {
    Legal(s) && '=' !in s && s[0] != '-' && s[0] != '@'
  }

  predicate PairOk(p: PairLine) {
    && Blanks(p.indent) && Blanks(p.after) && TailOk(p.tail)
    && LegalName(p.pair.0) && Ends(p.pair.0, p.before) && '=' !in p.before
    && Legal(p.pair.1) && Ends(p.pair.1, p.tail.pad)
    && |PairCore(p)| < LINE_BUFFER && |PairText(p)| < MAX_LINE_LEN
  }

  predicate CommentOk(s: string) {
    |s| < MAX_LINE_LEN && '\n' !in s && (s == "" || Starts(TrimLeft(s), '#'))
  }

  function BodyText(b: BodyLine): string {
    match b case PairBody(line) => PairText(line) case Comment(text) => text
  }

  predicate BodyOk(b: BodyLine) {
    match b case PairBody(line) => PairOk(line) case Comment(text) => CommentOk(text)
  }

  function HeaderCore(h: Header): string {
    h.gap + h.name + h.tail.pad
  }

  function HeaderRest(h: Header): string {
    HeaderCore(h) + h.tail.note
  }

  predicate HeaderOk(h: Header) {
    && Blanks(h.indent) && Blanks(h.gap) && TailOk(h.tail) && Legal(h.name) && Ends(h.name, h.tail.pad)
    && |HeaderCore(h)| < LINE_BUFFER && |HeaderRest(h)| < MAX_LINE_LEN
  }

  predicate NoiseOk(s: string) {
    var t := TrimLeft(s);
    '\n' !in s && !Starts(t, '-') && (Starts(t, '@') ==> !SwitchOff(t[1..]))
  }

  predicate ItemOk(i: Item) {
    match i
    case Noise(text) => NoiseOk(text)
    case BlockItem(header, body, closing) =>
      && HeaderOk(header) && (forall k :: 0 <= k < |body| ==> BodyOk(body[k]))
      && "-end" <= TrimLeft(closing) && '\n' !in closing
  }

  function BodyTexts(body: seq<BodyLine>): (r: seq<string>)
    ensures |r| == |body|
  {
    seq(|body|, i requires 0 <= i < |body| => BodyText(body[i]))
  }

  function ItemLines(i: Item): seq<string> {
    match i
    case Noise(text) => [text]
    case BlockItem(h, body, closing) => [h.indent + "-" + HeaderRest(h)] + BodyTexts(body) + [closing]
  }

  function DocLines(doc: seq<Item>): seq<string> {
    if |doc| == 0 then [] else ItemLines(doc[0]) + DocLines(doc[1..])
  }

  /** The pairs of a body, comments left out. */
  function Pairs(body: seq<BodyLine>): (r: seq<Pair>)
    ensures |r| <= |body|
  {
    if |body| == 0 then []
    else if body[0].PairBody? then [body[0].line.pair] + Pairs(body[1..])
    else Pairs(body[1..])
  }

  function FirstOf(pairs: seq<Pair>): seq<Pair> {
    if |pairs| > CONF_MAX_NODE_NUM then pairs[..CONF_MAX_NODE_NUM] else pairs
  }

  function ItemModes(i: Item): seq<Mode> {
    match i
    case Noise(_) => []
    case BlockItem(h, body, _) => [Mode(h.name, FirstOf(Pairs(body)))]
  }

  function DocModes(doc: seq<Item>): seq<Mode> {
    if |doc| == 0 then [] else ItemModes(doc[0]) + DocModes(doc[1..])
  }

  function AddedAll(conf: Conf, modes: seq<Mode>): Conf
    decreases modes
  {
    if |modes| == 0 then conf else AddedAll(Added(conf, modes[0]), modes[1..])
  }

  // ---- What decorated lines say ----

  lemma CutKeepsFirst(s: string)
    requires |s| > 0 && s[0] != '\0'
    ensures |Cut(s)| > 0 && Cut(s)[0] == s[0]
  {
  }

  lemma HashStands(core: string, note: string)
    requires '#' !in core && '\0' !in core && |note| > 0 && note[0] == '#'
    ensures var s := Cut(core + note); |s| > |core| && Index(s, '#') == |core| && s[..|core|] == core
  {
    CutPrefix(core, note);
    CutKeepsFirst(note);
    hide Cut, Index;
    var s := core + Cut(note);
    assert s[|core|] == '#';
    assert forall k :: 0 <= k < |core| ==> s[k] == core[k];
    IndexIs(s, '#', |core|);
  }

  /** The valid part of a line is the text before its comment. */
  lemma ValidPart(core: string, note: string)
    requires '#' !in core && '\0' !in core && TrimLeft(core) != []
    requires |note| > 0 ==> note[0] == '#'
    ensures ValidLength(core + note) == |core| && (core + note)[..|core|] == core
  {
    hide Cut, Index, TrimLeft;
    if |note| > 0 {
      HashStands(core, note);
    } else {
      NoHash(core);
      assert core + note == core;
    }
  }

  /** In terms of characters: the first # before any NUL ends the valid part, which is empty if it is only blanks. */
  lemma ValidLengthExactly(core: string, rest: string)
    requires '#' !in core && '\0' !in core
    ensures ValidLength(core) == |core|
    ensures ValidLength(core + "#" + rest) == if Blanks(core) then 0 else |core|
    ensures ValidLength(core + "\0" + rest) == |core| + 1 + |rest|
  {
    NoHash(core);
    var pad, word := TrimSplit(core);
    TrimBlanks(pad, word);
    assert |word| > 0 ==> core[|pad|] == word[0];
    assert Blanks(core) <==> word == [];
    assert core + "#" + rest == core + ("#" + rest) && core + "\0" + rest == core + ("\0" + rest);
    HashStands(core, "#" + rest);
    CutPrefix(core, "\0" + rest);
    assert Cut("\0" + rest) == "";
    IndexIs(core, '#', |core|);
    hide Cut, Index, TrimLeft;
  }

  lemma NoHash(s: string)
    requires '#' !in s && '\0' !in s
    ensures ValidLength(s) == |s|
  {
    CutPrefix(s, "");
    hide Cut, Index, TrimLeft;
    IndexIs(s, '#', |s|);
  }

  lemma CoreHasWord(a: string, w: string, b: string)
    requires Blanks(a) && |w| > 0 && !IsBlank(w[0])
    ensures TrimLeft(a + w + b) == w + b
  {
    assert a + w + b == a + (w + b);
    TrimBlanks(a, w + b);
  }

  lemma PairCoreClean(left: string, right: string)
    requires '\0' !in left && '#' !in left && '\n' !in left && '=' !in left
    requires '\0' !in right && '#' !in right && '\n' !in right
    ensures var core := left + "=" + right;
      && '\0' !in core && '#' !in core && '\n' !in core && Cut(core) == core
      && Index(core, '=') == |left| && core[..|left|] == left && core[|left| + 1..] == right
  {
    var core := left + "=" + right;
    IndexIs(core, '=', |left|);
    CutPrefix(core, "");
  }

  lemma PairLineSays(p: PairLine)
    requires PairOk(p)
    ensures ValidLength(PairText(p)) == |PairCore(p)| > 0
    ensures PairText(p)[..|PairCore(p)|] == PairCore(p) && PairOf(PairCore(p)) == Some(p.pair)
    ensures '\n' !in PairText(p) && Starts(TrimLeft(PairText(p)), p.pair.0[0])
  {
    hide Cut, Index, TrimLeft, Word, ValidLength, GetString;
    var left, right := p.indent + p.pair.0 + p.before, p.after + p.pair.1 + p.tail.pad;
    var core := PairCore(p);
    assert core == left + "=" + right;
    NoNuls(p.indent, p.pair.0, p.before);
    NoNuls(p.after, p.pair.1, p.tail.pad);
    PairCoreClean(left, right);
    CoreHasWord(p.indent, p.pair.0, p.before + "=" + right);
    assert core == p.indent + p.pair.0 + (p.before + "=" + right);
    ValidPart(core, p.tail.note);
    CoreHasWord(p.indent, p.pair.0, p.before + "=" + right + p.tail.note);
    assert PairText(p) == p.indent + p.pair.0 + (p.before + "=" + right + p.tail.note);
    GetStringFinds(p.indent, p.pair.0, p.before);
    GetStringFinds(p.after, p.pair.1, p.tail.pad);
  }

  lemma BlanksClean(s: string)
    requires Blanks(s)
    ensures '#' !in s && '\0' !in s && '\n' !in s
  {
  }

  /** What is trimmed are the blanks at the beginning. */
  lemma {:induction false} TrimSplit(s: string) returns (pad: string, rest: string)
    ensures rest == TrimLeft(s) && s == pad + rest && Blanks(pad) && (|rest| > 0 ==> !IsBlank(rest[0]))
  {
    if |s| > 0 && IsBlank(s[0]) {
      pad, rest := TrimSplit(s[1..]);
      pad := [s[0]] + pad;
    } else {
      pad, rest := "", s;
    }
  }

  lemma CommentSays(s: string)
    requires CommentOk(s)
    ensures ValidLength(s) == 0 && !Starts(TrimLeft(s), '-') && !Starts(TrimLeft(s), '@')
  {
    hide Cut, Index;
    if s == "" {
      NoHash(s);
    } else {
      var pad, note := TrimSplit(s);
      TrimBlanks(pad, note);
      hide TrimLeft;
      BlanksClean(pad);
      HashStands(pad, note);
    }
  }

  // ---- Decorated blocks and documents ----

  /** A line that says nothing to a block. */
  lemma BlockSkips(lines: seq<string>, made: Option<Mode>)
    requires |lines| > 0 && |lines[0]| < MAX_LINE_LEN && ValidLength(lines[0]) == 0
    ensures BlockOf(lines, made) == BlockOf(lines[1..], made)
  {
  }

  lemma BlockTakes(lines: seq<string>, mode: Mode, pair: Pair)
    requires |lines| > 0 && |lines[0]| < MAX_LINE_LEN && ValidLength(lines[0]) > 0
    requires PairOf(lines[0][..ValidLength(lines[0])]) == Some(pair)
    ensures var next := Mode(mode.name, mode.pairs + [pair]);
      BlockOf(lines, Some(mode)) == if |next.pairs| >= CONF_MAX_NODE_NUM then Made(next) else BlockOf(lines[1..], Some(next))
  {
    hide ValidLength, PairOf;
  }

  /** The lines of a body add its pairs to the mode, up to the limit. */
  lemma {:induction false} BodySays(body: seq<BodyLine>, rest: seq<string>, mode: Mode)
    requires (forall k :: 0 <= k < |body| ==> BodyOk(body[k])) && |mode.pairs| < CONF_MAX_NODE_NUM
    ensures var all := Mode(mode.name, mode.pairs + Pairs(body));
      BlockOf(BodyTexts(body) + rest, Some(mode))
      == if |all.pairs| >= CONF_MAX_NODE_NUM then Made(Mode(mode.name, FirstOf(all.pairs))) else BlockOf(rest, Some(all))
  {
    hide BlockOf, BodyOk, BodyText, BodyTexts, ValidLength, Pairs, FirstOf;
    PairsSplit(body);
    if |body| == 0 {
      NoTexts(body);
      assert mode.pairs + [] == mode.pairs && [] + rest == rest;
    } else {
      var lines := BodyTexts(body) + rest;
      TextsSplit(body);
      assert lines[1..] == BodyTexts(body[1..]) + rest && lines[0] == BodyText(body[0]);
      OneBodyLine(body[0]);
      if body[0].Comment? {
        BlockSkips(lines, Some(mode));
        BodySays(body[1..], rest, mode);
      } else {
        var next := mode.pairs + [body[0].line.pair];
        BlockTakes(lines, mode, body[0].line.pair);
        Regroup(mode.pairs, body[0].line.pair, Pairs(body[1..]));
        if |next| < CONF_MAX_NODE_NUM {
          BodySays(body[1..], rest, Mode(mode.name, next));
        } else {
          FirstOfFull(next, Pairs(body[1..]));
        }
      }
    }
  }

  lemma PairsSplit(body: seq<BodyLine>)
    ensures |body| == 0 ==> Pairs(body) == []
    ensures |body| > 0 && body[0].Comment? ==> Pairs(body) == Pairs(body[1..])
    ensures |body| > 0 && body[0].PairBody? ==> Pairs(body) == [body[0].line.pair] + Pairs(body[1..])
  {
  }

  lemma Regroup(a: seq<Pair>, x: Pair, b: seq<Pair>)
    ensures a + ([x] + b) == (a + [x]) + b
  {
  }

  lemma FirstOfFull(a: seq<Pair>, b: seq<Pair>)
    requires |a| == CONF_MAX_NODE_NUM
    ensures FirstOf(a + b) == a
  {
  }

  lemma OneBodyLine(b: BodyLine)
    requires BodyOk(b)
    ensures var s := BodyText(b);
      && |s| < MAX_LINE_LEN
      && (b.Comment? ==> ValidLength(s) == 0)
      && (b.PairBody? ==> ValidLength(s) > 0 && PairOf(s[..ValidLength(s)]) == Some(b.line.pair))
  {
    hide PairOk, PairText, CommentOk, ValidLength, PairOf;
    match b
    case Comment(text) => CommentSays(text); CommentShort(text);
    case PairBody(line) => PairLineSays(line); PairShort(line);
  }

  lemma NoLines(mode: Mode)
    ensures BlockOf([], Some(mode)) == Made(mode)
    ensures |mode.pairs| <= CONF_MAX_NODE_NUM ==> FirstOf(mode.pairs) == mode.pairs
  {
  }

  lemma PairShort(p: PairLine)
    requires PairOk(p)
    ensures |PairText(p)| < MAX_LINE_LEN
  {
  }

  lemma CommentShort(s: string)
    requires CommentOk(s)
    ensures |s| < MAX_LINE_LEN && '\n' !in s
  {
  }

  lemma HeaderSays(h: Header, body: seq<BodyLine>)
    requires HeaderOk(h) && (forall k :: 0 <= k < |body| ==> BodyOk(body[k]))
    ensures BlockOf([HeaderRest(h)] + BodyTexts(body), None) == Made(Mode(h.name, FirstOf(Pairs(body))))
    ensures '\n' !in HeaderRest(h)
  {
    HeaderOpens(h, BodyTexts(body));
    NoNuls(h.gap, h.name, h.tail.pad);
    hide BodyOk, FirstOf;
    assert BodyTexts(body) == BodyTexts(body) + [];
    BodySays(body, [], Mode(h.name, []));
    NoLines(Mode(h.name, Pairs(body)));
    assert [] + Pairs(body) == Pairs(body);
  }

  lemma ParseCollects(lines: seq<string>, block: seq<string>, conf: Conf)
    requires |lines| > 0 && !Starts(TrimLeft(lines[0]), '-') && !Starts(TrimLeft(lines[0]), '@')
    ensures Parse(lines, Inside(block), conf) == Parse(lines[1..], Inside(block + [lines[0]]), conf)
  {
    hide TrimLeft;
  }

  lemma ParseOpens(lines: seq<string>, conf: Conf)
    requires |lines| > 0 && Starts(TrimLeft(lines[0]), '-')
    ensures Parse(lines, Outside, conf) == Parse(lines[1..], Inside([TrimLeft(lines[0])[1..]]), conf)
  {
    hide TrimLeft;
  }

  lemma ParseCloses(lines: seq<string>, block: seq<string>, mode: Mode, conf: Conf)
    requires |lines| > 0 && "-end" <= TrimLeft(lines[0]) && BlockOf(block, None) == Made(mode)
    ensures Parse(lines, Inside(block), conf) == Parse(lines[1..], Outside, Added(conf, mode))
  {
    hide TrimLeft, BlockOf;
    assert TrimLeft(lines[0])[0] == "-end"[0];
  }

  lemma BodyStarts(b: BodyLine)
    requires BodyOk(b)
    ensures !Starts(TrimLeft(BodyText(b)), '-') && !Starts(TrimLeft(BodyText(b)), '@')
  {
    hide PairOk, PairText, CommentOk, TrimLeft;
    match b
    case Comment(text) => CommentSays(text);
    case PairBody(line) => PairLineSays(line); LegalStart(line);
  }

  lemma TextsSplit(body: seq<BodyLine>)
    requires |body| > 0
    ensures BodyTexts(body) == [BodyText(body[0])] + BodyTexts(body[1..])
  {
  }

  lemma NoTexts(body: seq<BodyLine>)
    requires |body| == 0
    ensures BodyTexts(body) == []
  {
  }

  lemma {:induction false} ParseBody(body: seq<BodyLine>, rest: seq<string>, block: seq<string>, conf: Conf)
    requires forall k :: 0 <= k < |body| ==> BodyOk(body[k])
    ensures Parse(BodyTexts(body) + rest, Inside(block), conf) == Parse(rest, Inside(block + BodyTexts(body)), conf)
  {
    hide Parse, BodyText, BodyTexts, BodyOk, TrimLeft;
    if |body| == 0 {
      NoTexts(body);
      assert [] + rest == rest && block + [] == block;
    } else {
      var lines, first, others := BodyTexts(body) + rest, BodyText(body[0]), BodyTexts(body[1..]);
      TextsSplit(body);
      BodyStarts(body[0]);
      assert lines[0] == first && lines[1..] == others + rest;
      ParseCollects(lines, block, conf);
      ParseBody(body[1..], rest, block + [first], conf);
      assert (block + [first]) + others == block + ([first] + others);
    }
  }

  lemma LegalStart(p: PairLine)
    requires PairOk(p)
    ensures p.pair.0[0] != '-' && p.pair.0[0] != '@'
  {
  }

  lemma HeaderStarts(h: Header)
    requires HeaderOk(h)
    ensures var t := TrimLeft(h.indent + "-" + HeaderRest(h)); Starts(t, '-') && t[1..] == HeaderRest(h)
  {
    CoreHasWord(h.indent, "-", HeaderRest(h));
    hide TrimLeft, HeaderRest;
    assert ("-" + HeaderRest(h))[1..] == HeaderRest(h);
  }

  lemma ParseBlock(h: Header, body: seq<BodyLine>, closing: string, rest: seq<string>, conf: Conf)
    requires ItemOk(BlockItem(h, body, closing))
    ensures Parse(ItemLines(BlockItem(h, body, closing)) + rest, Outside, conf)
         == Parse(rest, Outside, Added(conf, Mode(h.name, FirstOf(Pairs(body)))))
  {
    hide TrimLeft, HeaderOk, HeaderRest, BodyOk, BlockOf, FirstOf, Parse, BodyTexts;
    var first := h.indent + "-" + HeaderRest(h);
    HeaderStarts(h);
    HeaderSays(h, body);
    var afterBody := [closing] + rest;
    var lines := ItemLines(BlockItem(h, body, closing)) + rest;
    assert lines[0] == first && lines[1..] == BodyTexts(body) + afterBody;
    ParseOpens(lines, conf);
    ParseBody(body, afterBody, [HeaderRest(h)], conf);
    ParseCloses(afterBody, [HeaderRest(h)] + BodyTexts(body), Mode(h.name, FirstOf(Pairs(body))), conf);
    assert afterBody[1..] == rest;
  }

  lemma ParseItem(i: Item, rest: seq<string>, conf: Conf)
    requires ItemOk(i)
    ensures Parse(ItemLines(i) + rest, Outside, conf) == Parse(rest, Outside, AddedAll(conf, ItemModes(i)))
  {
    match i
    case Noise(text) =>
      assert ([text] + rest)[1..] == rest;
      hide TrimLeft, SwitchOff;
    case BlockItem(h, body, closing) =>
      ParseBlock(h, body, closing, rest, conf);
      hide Parse, ItemLines;
      assert AddedAll(conf, [Mode(h.name, FirstOf(Pairs(body)))]) == Added(conf, Mode(h.name, FirstOf(Pairs(body))));
  }

  lemma {:induction false} AddedAllConcat(conf: Conf, a: seq<Mode>, b: seq<Mode>)
    ensures AddedAll(conf, a + b) == AddedAll(AddedAll(conf, a), b)
    decreases a
  {
    if |a| == 0 {
      assert a + b == b;
    } else {
      AddedAllConcat(Added(conf, a[0]), a[1..], b);
      assert (a + b)[1..] == a[1..] + b;
    }
  }

  lemma {:induction false} ParseDoc(doc: seq<Item>, rest: seq<string>, conf: Conf)
    requires forall k :: 0 <= k < |doc| ==> ItemOk(doc[k])
    ensures Parse(DocLines(doc) + rest, Outside, conf) == Parse(rest, Outside, AddedAll(conf, DocModes(doc)))
  {
    hide Parse, ItemOk, ItemLines, ItemModes;
    if |doc| == 0 {
      assert DocLines(doc) + rest == rest;
    } else {
      var more := DocLines(doc[1..]) + rest;
      assert DocLines(doc) + rest == ItemLines(doc[0]) + more;
      ParseItem(doc[0], more, conf);
      ParseDoc(doc[1..], rest, AddedAll(conf, ItemModes(doc[0])));
      AddedAllConcat(conf, ItemModes(doc[0]), DocModes(doc[1..]));
    }
  }

  lemma BodyNoNewlines(b: BodyLine)
    requires BodyOk(b)
    ensures '\n' !in BodyText(b)
  {
    match b
    case Comment(text) => CommentShort(text); hide CommentOk;
    case PairBody(line) => PairLineSays(line); hide PairOk, PairText;
  }

  lemma HeaderNoNewlines(h: Header)
    requires HeaderOk(h)
    ensures '\n' !in h.indent + "-" + HeaderRest(h)
  {
    HeaderSays(h, []);
    BlanksClean(h.indent);
    hide HeaderRest, BlockOf, Blanks;
  }

  lemma ItemNoNewlines(i: Item)
    requires ItemOk(i)
    ensures NoNewlines(ItemLines(i))
  {
    hide BodyOk, BodyText, HeaderOk, HeaderRest, TrimLeft, SwitchOff;
    match i
    case Noise(_) =>
    case BlockItem(h, body, closing) =>
      HeaderNoNewlines(h);
      forall k | 0 <= k < |body| ensures '\n' !in BodyTexts(body)[k] {
        BodyNoNewlines(body[k]);
      }
  }

  lemma {:induction false} DocNoNewlines(doc: seq<Item>)
    requires forall k :: 0 <= k < |doc| ==> ItemOk(doc[k])
    ensures NoNewlines(DocLines(doc))
  {
    hide ItemOk, ItemLines;
    if |doc| > 0 {
      ItemNoNewlines(doc[0]);
      DocNoNewlines(doc[1..]);
    }
  }

  function Text(doc: seq<Item>): string {
    Unlines(DocLines(doc))
  }

  /** A decorated document means its modes, whatever its blanks, comments and empty lines are. */
  lemma DocumentMeansItsModes(doc: seq<Item>)
    requires (forall k :: 0 <= k < |doc| ==> ItemOk(doc[k])) && |Text(doc)| <= MAX_CONF_FILE_SIZE
    ensures Meaning(Text(doc)) == Done(AddedAll(EMPTY, DocModes(doc)))
  {
    hide ItemOk, DocLines, DocModes, Unlines;
    DocNoNewlines(doc);
    LinesOfUnlines(DocLines(doc), "");
    assert Unlines(DocLines(doc)) + "" == Text(doc);
    assert Lines("") == [""];
    ParseDoc(doc, [""], EMPTY);
    assert [""][1..] == [];
  }

  /** So two documents with the same modes mean the same. */
  lemma DecorationDoesNotMatter(doc: seq<Item>, other: seq<Item>)
    requires (forall k :: 0 <= k < |doc| ==> ItemOk(doc[k])) && |Text(doc)| <= MAX_CONF_FILE_SIZE
    requires (forall k :: 0 <= k < |other| ==> ItemOk(other[k])) && |Text(other)| <= MAX_CONF_FILE_SIZE
    requires DocModes(doc) == DocModes(other)
    ensures Meaning(Text(doc)) == Meaning(Text(other))
  {
    hide ItemOk, Text, Meaning;
    DocumentMeansItsModes(doc);
    DocumentMeansItsModes(other);
  }

  // ---- Printing ----

  /** Line ends without or with a carriage return. */
  predicate LineEnding(cr: string) {
    cr == "" || cr == "\r"
  }

  predicate Printable(modes: seq<Mode>, cr: string) {
    && LineEnding(cr)
    && (forall i :: 0 <= i < |modes| ==> PrintableMode(modes[i], cr))
    && (forall i, j :: 0 <= i < j < |modes| ==> modes[i].name != modes[j].name)
  }

  predicate PrintableMode(m: Mode, cr: string) {
    && Legal(m.name) && Ends(m.name, cr) && |m.pairs| <= CONF_MAX_NODE_NUM
    && (forall k :: 0 <= k < |m.pairs| ==> PrintablePair(m.pairs[k], cr))
  }

  predicate PrintablePair(p: Pair, cr: string) {
    LegalName(p.0) && Legal(p.1) && Ends(p.1, cr)
  }

  function PlainBody(pairs: seq<Pair>, cr: string): (r: seq<BodyLine>)
    ensures |r| == |pairs|
  {
    seq(|pairs|, i requires 0 <= i < |pairs| => PairBody(PairLine("", pairs[i], " ", " ", Tail(cr, ""))))
  }

  function Plain(modes: seq<Mode>, cr: string): (r: seq<Item>)
    ensures |r| == |modes|
  {
    seq(|modes|, i requires 0 <= i < |modes| =>
      BlockItem(Header("", "", modes[i].name, Tail(cr, "")), PlainBody(modes[i].pairs, cr), "-end" + cr))
  }

  lemma {:induction false} PlainPairs(pairs: seq<Pair>, cr: string)
    ensures Pairs(PlainBody(pairs, cr)) == pairs
  {
    if |pairs| > 0 {
      PlainPairs(pairs[1..], cr);
      assert PlainBody(pairs, cr)[1..] == PlainBody(pairs[1..], cr);
    }
  }

  lemma {:induction false} PlainModes(modes: seq<Mode>, cr: string)
    requires forall i :: 0 <= i < |modes| ==> PrintableMode(modes[i], cr)
    ensures DocModes(Plain(modes, cr)) == modes
  {
    hide PrintablePair;
    if |modes| > 0 {
      PlainModes(modes[1..], cr);
      assert Plain(modes, cr)[1..] == Plain(modes[1..], cr);
      PlainPairs(modes[0].pairs, cr);
    }
  }

  lemma PlainBodyOk(p: Pair, cr: string)
    requires PrintablePair(p, cr) && LineEnding(cr)
    ensures PairOk(PairLine("", p, " ", " ", Tail(cr, "")))
  {
    LegalLength(p.0);
    LegalLength(p.1);
    hide Legal;
  }

  lemma PlainOk(m: Mode, cr: string)
    requires PrintableMode(m, cr) && LineEnding(cr)
    ensures ItemOk(BlockItem(Header("", "", m.name, Tail(cr, "")), PlainBody(m.pairs, cr), "-end" + cr))
  {
    assert TrimLeft("-end" + cr) == "-end" + cr;
    LegalLength(m.name);
    hide Legal, PairOk;
    forall k | 0 <= k < |m.pairs| ensures BodyOk(PlainBody(m.pairs, cr)[k]) {
      PlainBodyOk(m.pairs[k], cr);
    }
    hide BodyOk;
  }

  lemma LegalLength(s: string)
    requires Legal(s)
    ensures 1 <= |s| <= CONF_STRING_MAX_LEN - 2
  {
  }

  /** Mode i is the last of its name. */
  predicate IsLast(modes: seq<Mode>, i: int) {
    0 <= i < |modes| && forall j :: i < j < |modes| ==> 0 <= j && modes[j].name != modes[i].name
  }

  predicate Named(modes: seq<Mode>, n: string) {
    exists i :: 0 <= i < |modes| && modes[i].name == n
  }

  lemma NamedFirst(modes: seq<Mode>, n: string)
    requires |modes| > 0
    ensures Named(modes, n) <==> modes[0].name == n || Named(modes[1..], n)
  {
    if i :| 0 <= i < |modes| && modes[i].name == n {
      assert i > 0 ==> modes[1..][i - 1].name == n;
    }
    if i :| 0 <= i < |modes[1..]| && modes[1..][i].name == n {
      assert modes[i + 1].name == n;
    }
  }

  /** In the table the last mode of each name counts; the counter counts all. */
  lemma {:induction false} LastModeCounts(conf: Conf, modes: seq<Mode>)
    ensures var t := AddedAll(conf, modes);
      && t.count == conf.count + |modes|
      && (forall n :: n in t.table <==> n in conf.table || Named(modes, n))
      && (forall i :: IsLast(modes, i) ==> modes[i].name in t.table && t.table[modes[i].name] == modes[i].pairs)
      && (forall n :: n in conf.table && !Named(modes, n) ==> n in t.table && t.table[n] == conf.table[n])
    decreases modes
  {
    if |modes| > 0 {
      var rest, t := modes[1..], AddedAll(conf, modes);
      LastModeCounts(Added(conf, modes[0]), rest);
      forall n ensures Named(modes, n) <==> modes[0].name == n || Named(rest, n) {
        NamedFirst(modes, n);
      }
      forall i | IsLast(modes, i) ensures modes[i].name in t.table && t.table[modes[i].name] == modes[i].pairs {
        if i > 0 {
          assert rest[i - 1] == modes[i] && forall j :: i - 1 < j < |rest| ==> rest[j] == modes[j + 1];
          assert IsLast(rest, i - 1);
        } else {
          assert forall j :: 0 <= j < |rest| ==> rest[j] == modes[j + 1];
          assert !Named(rest, modes[0].name);
        }
      }
    }
  }

  /** Printing a table and parsing the text gives exactly the table back, with either kind of line end. */
  lemma PrintThenParse(modes: seq<Mode>, cr: string) returns (conf: Conf)
    requires Printable(modes, cr) && |Text(Plain(modes, cr))| <= MAX_CONF_FILE_SIZE
    ensures Meaning(Text(Plain(modes, cr))) == Done(conf)
    ensures conf.count == |modes|
    ensures forall i :: 0 <= i < |modes| ==> modes[i].name in conf.table && conf.table[modes[i].name] == modes[i].pairs
    ensures forall n :: n in conf.table ==> exists i :: 0 <= i < |modes| && modes[i].name == n
  {
    hide ItemOk, Text, Meaning, PrintableMode;
    forall k | 0 <= k < |modes| ensures ItemOk(Plain(modes, cr)[k]) {
      PlainOk(modes[k], cr);
    }
    DocumentMeansItsModes(Plain(modes, cr));
    PlainModes(modes, cr);
    LastModeCounts(EMPTY, modes);
    conf := AddedAll(EMPTY, modes);
    assert forall i :: 0 <= i < |modes| ==> IsLast(modes, i);
  }

  // ---- What loses modes ----

  /**
   * A line without an equals sign or a comment in a block, unless 64 pairs were reached before it: an empty one is
   * skipped, one of up to 1023 characters, be they blanks or a carriage return, counts as a valid line without a pair
   * and loses the mode, and a longer one ends the block, which keeps the mode and drops what follows.
   */
  lemma LineWithoutPair(h: Header, body: seq<BodyLine>, line: string, rest: seq<string>)
    requires HeaderOk(h) && (forall k :: 0 <= k < |body| ==> BodyOk(body[k]))
    requires '=' !in line && '#' !in line && '\0' !in line
    ensures BlockOf([HeaderRest(h)] + (BodyTexts(body) + ([line] + rest)), None)
         == if |Pairs(body)| >= CONF_MAX_NODE_NUM then Made(Mode(h.name, FirstOf(Pairs(body))))
            else if line == "" then BlockOf([HeaderRest(h)] + (BodyTexts(body) + rest), None)
            else if |line| < MAX_LINE_LEN then NoMode
            else Made(Mode(h.name, Pairs(body)))
  {
    hide HeaderOk, HeaderRest, BodyOk, FirstOf, Pairs, BodyTexts, BlockOf;
    HeaderOpens(h, BodyTexts(body) + ([line] + rest));
    HeaderOpens(h, BodyTexts(body) + rest);
    BodySays(body, [line] + rest, Mode(h.name, []));
    BodySays(body, rest, Mode(h.name, []));
    assert [] + Pairs(body) == Pairs(body);
    NoPairLine(line, rest, Mode(h.name, Pairs(body)));
  }

  lemma NoPairLine(line: string, rest: seq<string>, mode: Mode)
    requires '=' !in line && '#' !in line && '\0' !in line
    ensures BlockOf([line] + rest, Some(mode))
         == if line == "" then BlockOf(rest, Some(mode)) else if |line| < MAX_LINE_LEN then NoMode else Made(mode)
  {
    NoPair(line);
    hide ValidLength, PairOf;
    assert line[..|line|] == line && ([line] + rest)[1..] == rest;
  }

  lemma NoPair(s: string)
    requires '=' !in s && '#' !in s && '\0' !in s
    ensures ValidLength(s) == |s| && PairOf(s) == None
  {
    NoHash(s);
    CutPrefix(s, "");
    IndexIs(s, '=', |s|);
    hide Cut, Index, ValidLength;
  }

  /** A line of a block with an equals sign gives a pair exactly if it is short enough and both its words are. */
  lemma PairOfParts(left: string, right: string)
    requires '=' !in left && '\0' !in left
    ensures PairOf(left + "=" + right)
         == if |left| + 1 + |right| < 256 && GetString(left).Some? && GetString(right).Some?
            then Some((GetString(left).value, GetString(right).value)) else None
  {
    var line := left + "=" + right;
    CutPrefix(left + "=", right);
    CutPrefix(left, "");
    CutTwice(right);
    var s := Cut(line);
    assert s == left + "=" + Cut(right);
    IndexIs(s, '=', |left|);
    assert s[..|left|] == left && s[|left| + 1..] == Cut(right);
    hide Cut, Index;
    assert GetString(Cut(right)) == GetString(right);
  }

  lemma CutTwice(s: string)
    ensures Cut(Cut(s)) == Cut(s)
  {
    CutPrefix(Cut(s), "");
  }

  /** A block whose first word has 127 characters or more makes no mode. */
  lemma LongNameLosesTheMode(a: string, w: string, z: string, rest: seq<string>)
    requires WordParts(a, w, z) && '#' !in a + w + z && '\0' !in z && 127 <= |w| && |a + w + z| < 256
    ensures BlockOf([a + w + z] + rest, None) == NoMode
  {
    var line := a + w + z;
    GetStringExactly(a, w, z);
    BlanksClean(a);
    NoHash(line);
    hide GetString, ValidLength;
    assert ([line] + rest)[0] == line && line[..|line|] == line;
  }

  /** A block that is still open at the end of the file makes no mode. */
  lemma UnclosedBlockIsLost(doc: seq<Item>, h: Header, body: seq<BodyLine>, conf: Conf)
    requires forall k :: 0 <= k < |doc| ==> ItemOk(doc[k])
    requires HeaderOk(h) && forall k :: 0 <= k < |body| ==> BodyOk(body[k])
    ensures Parse(DocLines(doc) + ([h.indent + "-" + HeaderRest(h)] + BodyTexts(body)), Outside, conf)
         == Done(AddedAll(conf, DocModes(doc)))
  {
    hide ItemOk, HeaderOk, BodyOk, HeaderRest, BodyTexts, DocLines, DocModes, TrimLeft;
    OpenBlock(doc, h, body, [], conf);
    assert BodyTexts(body) + [] == BodyTexts(body);
  }

  lemma HeaderOpens(h: Header, lines: seq<string>)
    requires HeaderOk(h)
    ensures BlockOf([HeaderRest(h)] + lines, None) == BlockOf(lines, Some(Mode(h.name, [])))
  {
    NoNuls(h.gap, h.name, h.tail.pad);
    CoreHasWord(h.gap, h.name, h.tail.pad);
    ValidPart(HeaderCore(h), h.tail.note);
    GetStringFinds(h.gap, h.name, h.tail.pad);
    hide Cut, Index, TrimLeft, Word, ValidLength, GetString;
    assert ([HeaderRest(h)] + lines)[1..] == lines;
  }

  /** Inside a block a line that starts with - but not with -end stops the parse; the modes before it stay. */
  lemma MissingEndStopsTheParse(doc: seq<Item>, h: Header, body: seq<BodyLine>, line: string, rest: seq<string>, conf: Conf)
    requires forall k :: 0 <= k < |doc| ==> ItemOk(doc[k])
    requires HeaderOk(h) && forall k :: 0 <= k < |body| ==> BodyOk(body[k])
    requires Starts(TrimLeft(line), '-') && !("-end" <= TrimLeft(line))
    ensures Parse(DocLines(doc) + ([h.indent + "-" + HeaderRest(h)] + (BodyTexts(body) + ([line] + rest))), Outside, conf)
         == Done(AddedAll(conf, DocModes(doc)))
  {
    hide ItemOk, HeaderOk, BodyOk, HeaderRest, BodyTexts, DocLines, DocModes, TrimLeft;
    OpenBlock(doc, h, body, [line] + rest, conf);
  }

  /** Inside a block, too, a line that switches the configuration off closes everything. */
  lemma SwitchInABlockClosesAll(doc: seq<Item>, h: Header, body: seq<BodyLine>, line: string, rest: seq<string>, conf: Conf)
    requires forall k :: 0 <= k < |doc| ==> ItemOk(doc[k])
    requires HeaderOk(h) && forall k :: 0 <= k < |body| ==> BodyOk(body[k])
    requires Starts(TrimLeft(line), '@') && SwitchOff(TrimLeft(line)[1..])
    ensures Parse(DocLines(doc) + ([h.indent + "-" + HeaderRest(h)] + (BodyTexts(body) + ([line] + rest))), Outside, conf)
         == ClosedAll
  {
    hide ItemOk, HeaderOk, BodyOk, HeaderRest, BodyTexts, DocLines, DocModes, TrimLeft, SwitchOff;
    OpenBlock(doc, h, body, [line] + rest, conf);
  }

  /** Whole items, then a block that is still open: the rest is parsed inside it. */
  lemma OpenBlock(doc: seq<Item>, h: Header, body: seq<BodyLine>, rest: seq<string>, conf: Conf)
    requires forall k :: 0 <= k < |doc| ==> ItemOk(doc[k])
    requires HeaderOk(h) && forall k :: 0 <= k < |body| ==> BodyOk(body[k])
    ensures Parse(DocLines(doc) + ([h.indent + "-" + HeaderRest(h)] + (BodyTexts(body) + rest)), Outside, conf)
         == Parse(rest, Inside([HeaderRest(h)] + BodyTexts(body)), AddedAll(conf, DocModes(doc)))
  {
    hide ItemOk, HeaderOk, BodyOk, HeaderRest, BodyTexts, DocLines, DocModes, TrimLeft, Parse;
    var first, more := h.indent + "-" + HeaderRest(h), BodyTexts(body) + rest;
    ParseDoc(doc, [first] + more, conf);
    var now := AddedAll(conf, DocModes(doc));
    HeaderStarts(h);
    ParseOpens([first] + more, now);
    assert ([first] + more)[1..] == more;
    ParseBody(body, rest, [HeaderRest(h)], now);
  }

  /** After whole items a line that switches the configuration off closes everything. */
  lemma SwitchClosesAll(doc: seq<Item>, line: string, rest: seq<string>, conf: Conf)
    requires forall k :: 0 <= k < |doc| ==> ItemOk(doc[k])
    requires Starts(TrimLeft(line), '@') && SwitchOff(TrimLeft(line)[1..])
    ensures Parse(DocLines(doc) + ([line] + rest), Outside, conf) == ClosedAll
  {
    hide ItemOk, DocLines, DocModes, TrimLeft, SwitchOff;
    ParseDoc(doc, [line] + rest, conf);
  }

  lemma {:induction false} DocConcat(a: seq<Item>, b: seq<Item>)
    ensures DocLines(a + b) == DocLines(a) + DocLines(b) && DocModes(a + b) == DocModes(a) + DocModes(b)
  {
    hide ItemLines, ItemModes;
    if |a| == 0 {
      assert a + b == b;
    } else {
      DocConcat(a[1..], b);
      DocFirst(a);
      DocFirst(a + b);
      hide DocLines, DocModes;
      assert (a + b)[1..] == a[1..] + b && (a + b)[0] == a[0];
      Associates(ItemLines(a[0]), DocLines(a[1..]), DocLines(b));
      Associates(ItemModes(a[0]), DocModes(a[1..]), DocModes(b));
    }
  }

  lemma DocFirst(doc: seq<Item>)
    requires |doc| > 0
    ensures DocLines(doc) == ItemLines(doc[0]) + DocLines(doc[1..])
    ensures DocModes(doc) == ItemModes(doc[0]) + DocModes(doc[1..])
  {
    hide ItemLines, ItemModes;
  }

  /** A line with the switch's name and a value. */
  function SwitchLine(pre: string, mid: string, gap: string, c: char, rest: string): string {
    pre + "CONF_SWITCH" + mid + "=" + gap + [c] + rest
  }

  /**
   * A file of whole items around such a line: with the value 0 everything is closed, with any other the line says
   * nothing and the file means the modes before and behind it.
   */
  lemma SwitchLineMeans(doc: seq<Item>, indent: string, pre: string, mid: string, gap: string, c: char, rest: string,
                        more: seq<Item>)
    requires (forall k :: 0 <= k < |doc| ==> ItemOk(doc[k])) && forall k :: 0 <= k < |more| ==> ItemOk(more[k])
    requires '=' !in pre && '\0' !in pre && '=' !in mid && Blanks(gap) && !IsBlank(c) && Blanks(indent)
    requires |pre| + 11 + |mid| + 1 + |gap| < 125 && '\n' !in SwitchLine(pre, mid, gap, c, rest)
    requires |Unlines(DocLines(doc) + ([indent + "@" + SwitchLine(pre, mid, gap, c, rest)] + DocLines(more)))|
          <= MAX_CONF_FILE_SIZE
    ensures Meaning(Unlines(DocLines(doc) + ([indent + "@" + SwitchLine(pre, mid, gap, c, rest)] + DocLines(more))))
         == if c == '0' then ClosedAll else Done(AddedAll(EMPTY, DocModes(doc) + DocModes(more)))
  {
    hide SwitchOff, TrimLeft, ItemOk, DocLines, DocModes, Unlines, Lines, Meaning;
    var s := SwitchLine(pre, mid, gap, c, rest);
    SwitchValueDecides(pre, mid, gap, c, rest);
    assert SwitchOff(s) <==> c == '0';
    hide SwitchLine;
    var line := indent + "@" + s;
    CoreHasWord(indent, "@", s);
    BlanksClean(indent);
    if c == '0' {
      AmongItems(doc, line, s, more);
    } else {
      NoiseAmongItems(doc, line, s, more);
    }
  }

  lemma AmongItems(doc: seq<Item>, line: string, s: string, more: seq<Item>)
    requires (forall k :: 0 <= k < |doc| ==> ItemOk(doc[k])) && forall k :: 0 <= k < |more| ==> ItemOk(more[k])
    requires TrimLeft(line) == "@" + s && SwitchOff(s) && '\n' !in line
    requires |Unlines(DocLines(doc) + ([line] + DocLines(more)))| <= MAX_CONF_FILE_SIZE
    ensures Meaning(Unlines(DocLines(doc) + ([line] + DocLines(more)))) == ClosedAll
  {
    hide SwitchOff, TrimLeft, ItemOk, DocLines, Unlines, Lines, Parse;
    var lines, last := DocLines(doc) + ([line] + DocLines(more)), Lines("");
    DocNoNewlines(doc);
    DocNoNewlines(more);
    LinesOfUnlines(lines, "");
    assert Unlines(lines) + "" == Unlines(lines);
    assert lines + last == DocLines(doc) + ([line] + (DocLines(more) + last));
    assert ("@" + s)[1..] == s;
    SwitchClosesAll(doc, line, DocLines(more) + last, EMPTY);
  }

  lemma NoiseAmongItems(doc: seq<Item>, line: string, s: string, more: seq<Item>)
    requires (forall k :: 0 <= k < |doc| ==> ItemOk(doc[k])) && forall k :: 0 <= k < |more| ==> ItemOk(more[k])
    requires TrimLeft(line) == "@" + s && !SwitchOff(s) && '\n' !in line
    requires |Unlines(DocLines(doc) + ([line] + DocLines(more)))| <= MAX_CONF_FILE_SIZE
    ensures Meaning(Unlines(DocLines(doc) + ([line] + DocLines(more))))
         == Done(AddedAll(EMPTY, DocModes(doc) + DocModes(more)))
  {
    hide SwitchOff, TrimLeft, ItemOk, DocLines, DocModes, Unlines, Meaning, AddedAll;
    NoiseLine(line, s);
    OneNoise(line);
    DocConcat([Noise(line)], more);
    DocConcat(doc, [Noise(line)] + more);
    assert [] + DocModes(more) == DocModes(more);
    DocumentMeansItsModes(doc + ([Noise(line)] + more));
  }

  lemma NoiseLine(line: string, s: string)
    requires TrimLeft(line) == "@" + s && !SwitchOff(s) && '\n' !in line
    ensures ItemOk(Noise(line))
  {
    hide SwitchOff, TrimLeft;
    assert ("@" + s)[1..] == s;
  }

  lemma OneNoise(line: string)
    ensures DocLines([Noise(line)]) == [line] && DocModes([Noise(line)]) == []
  {
  }

  // ---- When a mode line overruns its buffer ----

  /** Line k is the first valid line of a block, behind none that ends it, and too long for the buffer of a mode line. */
  predicate OverrunsAt(lines: seq<string>, k: int) {
    && 0 <= k < |lines| && |lines[k]| < MAX_LINE_LEN && ValidLength(lines[k]) >= LINE_BUFFER
    && forall i :: 0 <= i < k ==> |lines[i]| < MAX_LINE_LEN && ValidLength(lines[i]) == 0
  }

  predicate BlockOverruns(lines: seq<string>) {
    exists k :: 0 <= k < |lines| && OverrunsAt(lines, k)
  }

  lemma {:induction false} MadeNeverOverruns(lines: seq<string>, mode: Mode)
    ensures BlockOf(lines, Some(mode)) != BlockOverrun
  {
    hide ValidLength, PairOf;
    if |lines| > 0 && |lines[0]| < MAX_LINE_LEN {
      MadeNeverOverruns(lines[1..], mode);
      var pair := PairOf(lines[0][..ValidLength(lines[0])]);
      if pair.Some? {
        MadeNeverOverruns(lines[1..], Mode(mode.name, mode.pairs + [pair.value]));
      }
    }
  }

  /** A block overruns exactly if its first valid line has 256 valid characters or more. */
  lemma {:induction false} BlockOverrunsExactly(lines: seq<string>)
    ensures BlockOf(lines, None) == BlockOverrun <==> BlockOverruns(lines)
  {
    hide ValidLength, GetString;
    if |lines| == 0 || |lines[0]| >= MAX_LINE_LEN {
      forall k ensures !OverrunsAt(lines, k) {
        assert k > 0 && k < |lines| ==> 0 <= 0 < k;
      }
    } else if ValidLength(lines[0]) == 0 {
      var rest := lines[1..];
      BlockOverrunsExactly(rest);
      if k :| 0 <= k < |rest| && OverrunsAt(rest, k) {
        OverrunsLater(lines, k);
      }
      if k :| 0 <= k < |lines| && OverrunsAt(lines, k) {
        OverrunsLater(lines, k - 1);
      }
    } else {
      var name := GetString(lines[0][..ValidLength(lines[0])]);
      if name.Some? {
        MadeNeverOverruns(lines[1..], Mode(name.value, []));
      }
      assert ValidLength(lines[0]) >= LINE_BUFFER ==> OverrunsAt(lines, 0);
      assert forall k :: OverrunsAt(lines, k) && k > 0 ==> ValidLength(lines[0]) == 0;
    }
  }

  lemma OverrunsLater(lines: seq<string>, k: int)
    requires |lines| > 0 && |lines[0]| < MAX_LINE_LEN && ValidLength(lines[0]) == 0
    ensures OverrunsAt(lines[1..], k) <==> k >= 0 && OverrunsAt(lines, k + 1)
  {
    hide ValidLength;
    if OverrunsAt(lines[1..], k) {
      forall i | 0 <= i < k + 1 ensures |lines[i]| < MAX_LINE_LEN && ValidLength(lines[i]) == 0 {
        assert i > 0 ==> lines[i] == lines[1..][i - 1];
      }
    }
    if k >= 0 && OverrunsAt(lines, k + 1) {
      forall i | 0 <= i < k ensures |lines[1..][i]| < MAX_LINE_LEN && ValidLength(lines[1..][i]) == 0 {
        assert lines[1..][i] == lines[i + 1];
      }
    }
  }

  /** Where the scan stands after a line, or nothing if a switch or a missing -end stops it. */
  function AfterLine(line: string, scan: Scan): Option<Scan> {
    var t := TrimLeft(line);
    if Starts(t, '@') then
      if SwitchOff(t[1..]) then None else Some(Collected(scan, line))
    else if Starts(t, '-') && scan.Inside? then
      if "-end" <= t then Some(Outside) else None
    else if Starts(t, '-') then Some(Inside([t[1..]]))
    else Some(Collected(scan, line))
  }

  /** Where the scan stands after these lines, or nothing once it has stopped. */
  function Going(lines: seq<string>, scan: Scan): Option<Scan> {
    if |lines| == 0 then Some(scan)
    else
      var g := AfterLine(lines[0], scan);
      if g.None? then None else Going(lines[1..], g.value)
  }

  /** Line n ends a block that overruns. */
  predicate EndsOverrun(lines: seq<string>, scan: Scan, n: int) {
    0 <= n < |lines| && "-end" <= TrimLeft(lines[n]) &&
    var g := Going(lines[..n], scan);
    g.Some? && g.value.Inside? && BlockOverruns(g.value.block)
  }

  predicate SomeBlockOverruns(lines: seq<string>, scan: Scan) {
    exists n :: 0 <= n < |lines| && EndsOverrun(lines, scan, n)
  }

  lemma OverrunLater(lines: seq<string>, scan: Scan, n: int)
    requires |lines| > 0 && AfterLine(lines[0], scan).Some? && n >= 0
    ensures EndsOverrun(lines, scan, n + 1) <==> EndsOverrun(lines[1..], AfterLine(lines[0], scan).value, n)
  {
    hide TrimLeft, BlockOverruns, AfterLine;
    if n + 1 < |lines| {
      assert lines[..n + 1][0] == lines[0] && lines[..n + 1][1..] == lines[1..][..n];
    }
  }

  lemma OverrunNow(lines: seq<string>, scan: Scan)
    requires |lines| > 0
    ensures EndsOverrun(lines, scan, 0) <==> "-end" <= TrimLeft(lines[0]) && scan.Inside? && BlockOverruns(scan.block)
  {
    hide TrimLeft, BlockOverruns;
    assert lines[..0] == [];
  }

  /** Stopped at its first line, a scan ends no later block. */
  lemma NoneLater(lines: seq<string>, scan: Scan, n: int)
    requires |lines| > 0 && AfterLine(lines[0], scan).None? && n > 0
    ensures !EndsOverrun(lines, scan, n)
  {
    hide TrimLeft, BlockOverruns, AfterLine;
    if n < |lines| {
      assert lines[..n][0] == lines[0];
    }
  }

  /** A parse overruns exactly if it comes to the -end of a block that does. */
  lemma {:induction false} ParseOverrunsExactly(lines: seq<string>, scan: Scan, conf: Conf)
    ensures Parse(lines, scan, conf) == Overrun <==> SomeBlockOverruns(lines, scan)
    decreases lines
  {
    if |lines| > 0 {
      var g := AfterLine(lines[0], scan);
      OverrunNow(lines, scan);
      if scan.Inside? {
        BlockOverrunsExactly(scan.block);
      }
      ParseGoesOn(lines, scan, conf);
      hide Parse, EndsOverrun, BlockOverruns, TrimLeft, AfterLine, BlockOf;
      if g.None? {
        forall n | n > 0 ensures !EndsOverrun(lines, scan, n) {
          NoneLater(lines, scan, n);
        }
      } else {
        forall c ensures Parse(lines[1..], g.value, c) == Overrun <==> SomeBlockOverruns(lines[1..], g.value) {
          ParseOverrunsExactly(lines[1..], g.value, c);
        }
        forall n | n >= 0 ensures EndsOverrun(lines, scan, n + 1) <==> EndsOverrun(lines[1..], g.value, n) {
          OverrunLater(lines, scan, n);
        }
        OverrunShift(lines, scan, g.value);
      }
    }
  }

  lemma OverrunShift(lines: seq<string>, scan: Scan, next: Scan)
    requires |lines| > 0
    requires forall n :: n >= 0 ==> (EndsOverrun(lines, scan, n + 1) <==> EndsOverrun(lines[1..], next, n))
    ensures SomeBlockOverruns(lines, scan) <==> EndsOverrun(lines, scan, 0) || SomeBlockOverruns(lines[1..], next)
  {
    hide EndsOverrun;
    if n :| 0 <= n < |lines| && EndsOverrun(lines, scan, n) {
      if n > 0 {
        assert EndsOverrun(lines[1..], next, n - 1);
      }
    }
    if n :| 0 <= n < |lines[1..]| && EndsOverrun(lines[1..], next, n) {
      assert EndsOverrun(lines, scan, n + 1);
    }
  }

  /** Whether the first line overruns, and if not, that the parse goes on where the scan does, with some table. */
  lemma ParseGoesOn(lines: seq<string>, scan: Scan, conf: Conf)
    requires |lines| > 0
    ensures var g := AfterLine(lines[0], scan);
      var now := "-end" <= TrimLeft(lines[0]) && scan.Inside? && BlockOf(scan.block, None) == BlockOverrun;
      && (now ==> Parse(lines, scan, conf) == Overrun)
      && (!now && g.None? ==> Parse(lines, scan, conf) != Overrun)
      && (!now && g.Some? ==>
            || Parse(lines, scan, conf) == Parse(lines[1..], g.value, conf)
            || exists m :: Parse(lines, scan, conf) == Parse(lines[1..], g.value, Added(conf, m)))
  {
    hide TrimLeft, SwitchOff, BlockOf;
    assert "-end" <= TrimLeft(lines[0]) ==> TrimLeft(lines[0])[0] == "-end"[0];
  }

  /** A file has no defined meaning exactly if the parse comes to the -end of a block that overruns. */
  lemma MeaningOverrunsExactly(text: string)
    ensures Meaning(text) == Overrun <==> SomeBlockOverruns(FileLines(text), Outside)
  {
    ParseOverrunsExactly(FileLines(text), Outside, EMPTY);
  }

  lemma OnlyLetters(name: string)
    requires forall k :: 0 <= k < |name| ==> name[k] == 'a'
    ensures '\n' !in "-" + name && '#' !in name && '\0' !in name && '\n' !in "-end"
  {
  }

  lemma LongNameLines(name: string)
    requires |name| == LINE_BUFFER && forall k :: 0 <= k < |name| ==> name[k] == 'a'
    ensures FileLines("-" + name + "\n" + "-end") == ["-" + name] + ["-end"]
    ensures TrimLeft("-" + name) == "-" + name && TrimLeft("-end") == "-end" && ValidLength(name) == LINE_BUFFER
  {
    hide TrimLeft, ValidLength, Lines, Cut, Index;
    OnlyLetters(name);
    LinesFirst("-" + name, "-end");
    LinesFirst("-end", "");
    NoHash(name);
    CoreHasWord("", "-", name);
    CoreHasWord("", "-", "end");
    assert "" + "-" + name == "-" + name && "" + "-" + "end" == "-end";
  }

  /** Such a file: a mode name of 256 characters. */
  lemma LongNameOverruns()
    ensures Meaning("-" + seq(LINE_BUFFER, _ => 'a') + "\n" + "-end") == Overrun
  {
    var name := seq(LINE_BUFFER, _ => 'a');
    LongNameLines(name);
    hide ValidLength, TrimLeft, FileLines;
    assert OverrunsAt([name], 0);
    BlockOverrunsExactly([name]);
    hide BlockOf, OverrunsAt;
    var lines := ["-" + name] + ["-end"];
    ParseOpens(lines, EMPTY);
    assert lines[1..] == ["-end"] && ("-" + name)[1..] == name;
  }
}

/** The parser as it goes through its buffer by position. */
module ConfParser {
  import opened ConfFormat
  import opened Seqs

  const REPEAT_INIT_ERR := -3
  const OPEN_FILE_ERR := -4
  const MALLOC_BUF_ERR := -6
  const CONF_CLOSE_ALL := -9

  /** The buffer is filled with NULs behind the file. */
  function At(buf: string, p: nat): char {
    if p < |buf| then buf[p] else '\0'
  }

  function LineEnd(buf: string, p: nat): (e: nat)
    requires p <= |buf|
    ensures p <= e <= |buf|
  {
    p + Index(buf[p..], '\n')
  }

  lemma LineEndIs(buf: string, p: nat, e: nat)
    requires p <= e <= |buf| && (e < |buf| ==> buf[e] == '\n') && forall k :: p <= k < e ==> buf[k] != '\n'
    ensures LineEnd(buf, p) == e
  {
    IndexIs(buf[p..], '\n', e - p);
  }

  lemma LineEndHas(buf: string, p: nat)
    requires p <= |buf|
    ensures var e := LineEnd(buf, p); (e < |buf| ==> buf[e] == '\n') && forall k :: p <= k < e ==> buf[k] != '\n'
  {
    forall k | p <= k < LineEnd(buf, p) ensures buf[k] != '\n' {
      assert buf[k] == buf[p..][k - p];
    }
  }

  lemma LinesStep(s: string)
    ensures var i := Index(s, '\n'); Lines(s) == if i == |s| then [s] else [s[..i]] + Lines(s[i + 1..])
  {
    hide Index;
  }

  /** The lines from position p on. */
  lemma LinesFrom(buf: string, p: nat)
    requires p <= |buf|
    ensures var e := LineEnd(buf, p);
      Lines(buf[p..]) == [buf[p..e]] + (if e == |buf| then [] else Lines(buf[e + 1..]))
  {
    var i := Index(buf[p..], '\n');
    LinesStep(buf[p..]);
    Slices(buf, p, i);
    assert LineEnd(buf, p) == p + i;
    hide *;
    if p + i == |buf| {
      assert [buf[p..p + i]] + [] == [buf[p..p + i]];
    }
  }

  lemma Slices(buf: string, p: nat, i: nat)
    requires p + i <= |buf|
    ensures buf[p..][..i] == buf[p..p + i] && (p + i == |buf| ==> buf[p..p + i] == buf[p..])
    ensures p + i < |buf| ==> buf[p..][i + 1..] == buf[p + i + 1..]
  {
  }

  method SkipLine(buf: string, p: nat) returns (e: nat)
    requires p <= |buf|
    ensures e == LineEnd(buf, p)
  {
    e := p;
    while e != |buf| && buf[e] != '\n'
      invariant p <= e <= |buf|
      invariant forall k :: p <= k < e ==> buf[k] != '\n'
    {
      e := e + 1;
    }
    LineEndIs(buf, p, e);
  }

  lemma LineEndFrom(buf: string, p: nat, q: nat)
    requires p <= |buf| && p <= q <= LineEnd(buf, p)
    ensures LineEnd(buf, q) == LineEnd(buf, p)
  {
    LineEndHas(buf, p);
    LineEndIs(buf, q, LineEnd(buf, p));
  }

  lemma LineEndStops(buf: string, p: nat)
    requires p <= |buf|
    ensures LineEnd(buf, p) < |buf| ==> buf[LineEnd(buf, p)] == '\n'
  {
    LineEndHas(buf, p);
  }

  /** To the first character of the line that is no blank. */
  method SkipBlanks(buf: string, p: nat) returns (q: nat)
    requires p <= |buf|
    ensures p <= q <= LineEnd(buf, p) && LineEnd(buf, q) == LineEnd(buf, p)
    ensures TrimLeft(buf[p..LineEnd(buf, p)]) == buf[q..LineEnd(buf, p)]
  {
    hide TrimLeft, LineEnd;
    ghost var e := LineEnd(buf, p);
    LineEndStops(buf, p);
    q := p;
    while q < |buf| && buf[q] != '\n' && IsBlank(buf[q])
      invariant p <= q <= e
      invariant TrimLeft(buf[p..e]) == TrimLeft(buf[q..e])
    {
      TrimStep(buf, q, e);
      q := q + 1;
    }
    SkipDone(buf, p, q);
  }

  lemma SkipDone(buf: string, p: nat, q: nat)
    requires p <= |buf| && p <= q <= LineEnd(buf, p)
    requires q < |buf| ==> buf[q] == '\n' || !IsBlank(buf[q])
    ensures LineEnd(buf, q) == LineEnd(buf, p)
    ensures TrimLeft(buf[q..LineEnd(buf, p)]) == buf[q..LineEnd(buf, p)]
  {
    hide TrimLeft, LineEnd;
    LineEndFrom(buf, p, q);
    LineEndHas(buf, p);
    TrimStep(buf, q, LineEnd(buf, p));
  }

  lemma TrimStep(s: string, i: nat, e: nat)
    requires i <= e <= |s|
    ensures TrimLeft(s[i..e]) == if i < e && IsBlank(s[i]) then TrimLeft(s[i + 1..e]) else s[i..e]
  {
    if i < e {
      assert s[i..e][1..] == s[i + 1..e];
    }
  }

  lemma WordStep(s: string, i: nat)
    requires i <= |s|
    ensures Word(s[i..]) == if i < |s| && !IsBlank(s[i]) then [s[i]] + Word(s[i + 1..]) else []
  {
    if i < |s| {
      assert s[i..][1..] == s[i + 1..];
    }
  }

  lemma CutClean(s: string)
    ensures '\0' !in Cut(s)
  {
  }

  // ---- One line ----

  method CheckCommentLine(line: string) returns (n: nat)
    ensures n == ValidLength(line)
  {
    var s := Cut(line);
    var comment := Index(s, '#');
    if comment < |s| {
      n := comment;
      var i := 0;
      while i < comment && IsBlank(s[i])
        invariant i <= comment && TrimLeft(s[..comment]) == TrimLeft(s[i..comment])
      {
        TrimStep(s, i, comment);
        i := i + 1;
      }
      TrimStep(s, i, comment);
      if i == comment {
        n := 0;
      }
    } else {
      n := |line|;
    }
  }

  /** The first word of a NUL-terminated buffer, by position. */
  method FirstWord(s: string) returns (w: string)
    requires '\0' !in s
    ensures w == Word(TrimLeft(s))
  {
    hide TrimLeft, Word;
    assert s[0..|s|] == s;
    var i := 0;
    while At(s, i) != '\0' && IsBlank(At(s, i))
      invariant i <= |s| && TrimLeft(s) == TrimLeft(s[i..|s|])
      decreases |s| - i
    {
      TrimStep(s, i, |s|);
      i := i + 1;
    }
    TrimStep(s, i, |s|);
    assert s[i..|s|] == s[i..];
    var start := i;
    ghost var whole := Word(s[start..]);
    assert [] + whole == whole;
    while At(s, i) != '\0' && !IsBlank(At(s, i))
      invariant start <= i <= |s| && s[start..i] + Word(s[i..]) == whole
      decreases |s| - i
    {
      WordStep(s, i);
      assert s[start..i + 1] == s[start..i] + [s[i]];
      Associates(s[start..i], [s[i]], Word(s[i + 1..]));
      i := i + 1;
    }
    WordStep(s, i);
    w := s[start..i];
  }

  method GetStringOf(src: string) returns (dst: Option<string>)
    requires |src| < LINE_BUFFER
    ensures dst == GetString(src)
  {
    CutClean(src);
    var w := FirstWord(Cut(src));
    if |w| < CONF_STRING_MAX_LEN - 1 {
      if |w| > 0 && w[|w| - 1] == '\r' {
        w := w[..|w| - 1];
      }
      dst := Some(w);
    } else {
      dst := None;
    }
  }

  method LineHandle(buf: string) returns (pair: Option<Pair>)
    ensures pair == PairOf(buf)
  {
    pair := None;
    if |buf| > LINE_BUFFER - 1 {
      return;
    }
    var line := Cut(buf);
    var mid := Index(line, '=');
    if mid < |line| {
      var name := GetStringOf(line[..mid]);
      if name.Some? {
        var value := GetStringOf(line[mid + 1..]);
        if value.Some? {
          pair := Some((name.value, value.value));
        }
      }
    }
  }

  // ---- Blocks ----

  lemma BlockStep(lines: seq<string>, rest: seq<string>, made: Option<Mode>)
    requires |lines| > 0 && lines == [lines[0]] + rest
    ensures BlockOf(lines, made) ==
      if |lines[0]| >= MAX_LINE_LEN then ResultOf(made)
      else if ValidLength(lines[0]) == 0 then BlockOf(rest, made)
      else if made.None? then NamedBy(lines[0][..ValidLength(lines[0])], rest)
      else PairedBy(lines[0][..ValidLength(lines[0])], rest, made.value)
  {
    assert lines[1..] == rest;
    hide ValidLength, GetString, PairOf;
  }

  /** A block's first valid line gives the name. */
  function NamedBy(part: string, rest: seq<string>): Block {
    if |part| >= LINE_BUFFER then BlockOverrun
    else
      var name := GetString(part);
      if name.None? then NoMode else BlockOf(rest, Some(Mode(name.value, [])))
  }

  /** Every other valid line gives a pair. */
  function PairedBy(part: string, rest: seq<string>, made: Mode): Block {
    var pair := PairOf(part);
    if pair.None? then NoMode
    else
      var mode := Mode(made.name, made.pairs + [pair.value]);
      if |mode.pairs| >= CONF_MAX_NODE_NUM then Made(mode) else BlockOf(rest, Some(mode))
  }

  function ButLast(lines: seq<string>): seq<string>
    requires |lines| > 0
  {
    lines[..|lines| - 1]
  }

  /** The lines of a block from p on, without what stands before its -end. */
  function BlockLines(buf: string, p: nat): seq<string>
    requires p <= |buf|
  {
    ButLast(Lines(buf[p..]))
  }

  lemma BlockLinesStep(buf: string, p: nat)
    requires p <= |buf|
    ensures var e := LineEnd(buf, p);
      if e == |buf| then BlockLines(buf, p) == []
      else BlockLines(buf, p) == [buf[p..e]] + BlockLines(buf, e + 1)
  {
    LinesFrom(buf, p);
    hide Lines, LineEnd;
  }

  method HandleConfBlock(buf: string) returns (block: Block)
    ensures block == BlockOf(BlockLines(buf, 0), None)
  {
    hide BlockOf, BlockLines, ValidLength, LineEnd, GetString, PairOf;
    assert buf[0..] == buf;
    var made: Option<Mode> := None;
    var p := 0;
    while p != |buf|
      invariant p <= |buf|
      invariant BlockOf(BlockLines(buf, p), made) == BlockOf(BlockLines(buf, 0), None)
      decreases |buf| - p
    {
      var lineStart := p;
      BlockLinesStep(buf, p);
      p := SkipLine(buf, p);
      if p == |buf| {
        break;
      }
      var line := buf[lineStart..p];
      BlockStep(BlockLines(buf, lineStart), BlockLines(buf, p + 1), made);
      if |line| > MAX_LINE_LEN - 1 {
        return ResultOf(made);
      }
      var len := CheckCommentLine(line);
      if len > 0 {
        if made.None? {
          if len >= LINE_BUFFER {
            return BlockOverrun;
          }
          var name := GetStringOf(line[..len]);
          if name.None? {
            return NoMode;
          }
          made := Some(Mode(name.value, []));
        } else {
          var pair := LineHandle(line[..len]);
          if pair.None? {
            return NoMode;
          }
          made := Some(Mode(made.value.name, made.value.pairs + [pair.value]));
          if |made.value.pairs| >= CONF_MAX_NODE_NUM {
            return Made(made.value);
          }
        }
      }
      p := p + 1;
    }
    AtEnd(buf, p, made);
    block := ResultOf(made);
  }

  lemma AtEnd(buf: string, p: nat, made: Option<Mode>)
    requires p == |buf|
    ensures BlockOf([], made) == ResultOf(made)
    ensures BlockLines(buf, p) == []
  {
    BlockLinesStep(buf, p);
  }

  // ---- The file ----

  /** What stands between @ and the end of its line, at most as much as the buffer takes. */
  method SwitchedOff(buf: string, p: nat) returns (off: bool, e: nat)
    requires p <= |buf|
    ensures e == LineEnd(buf, p) && off == SwitchOff(buf[p..e])
    ensures var b := if e - p > 125 then buf[p..p + 125] else buf[p..e];
      off <==> (exists k :: NameAt(b, k)) && exists i, j :: ZeroAt(b, i, j)
  {
    hide LineEnd, Contains, Cut, ZeroValue, NameAt, ZeroAt;
    var b;
    b, e := CopySwitch(buf, p);
    off := false;
    if Contains(Cut(b), CONF_SWITCH) {
      off := IsZero(b);
    }
    SwitchOffExactly(buf[p..e]);
    assert e - p > 125 ==> buf[p..e][..125] == buf[p..p + 125];
  }

  method IsZero(b: string) returns (zero: bool)
    ensures zero == ZeroValue(b)
  {
    hide TrimLeft;
    zero := false;
    var j := Index(b, '=');
    if j < |b| {
      j := j + 1;
      ghost var v := b[j..];
      assert b[j..|b|] == v;
      while j < |b| && IsBlank(b[j])
        invariant j <= |b| && TrimLeft(v) == TrimLeft(b[j..|b|])
      {
        TrimStep(b, j, |b|);
        j := j + 1;
      }
      TrimStep(b, j, |b|);
      zero := j < |b| && b[j] == '0';
    }
  }

  /** Copies the rest of the line as far as the buffer takes it. */
  method CopySwitch(buf: string, p: nat) returns (b: string, e: nat)
    requires p <= |buf|
    ensures e == LineEnd(buf, p)
    ensures b == if |buf[p..e]| > SWITCH_BUFFER then buf[p..e][..SWITCH_BUFFER] else buf[p..e]
  {
    hide LineEnd;
    ghost var lineEnd := LineEnd(buf, p);
    LineEndStops(buf, p);
    b := [];
    e := p;
    while e != |buf| && buf[e] != '\n'
      invariant p <= e <= lineEnd
      invariant |b| == if e - p > SWITCH_BUFFER then SWITCH_BUFFER else e - p
      invariant b == buf[p..p + |b|]
    {
      if |b| < SWITCH_BUFFER {
        b := b + [buf[e]];
      }
      e := e + 1;
    }
    LineEndFrom(buf, p, e);
    EndsHere(buf, e);
  }

  lemma EndsHere(buf: string, e: nat)
    requires e <= |buf| && (e < |buf| ==> buf[e] == '\n')
    ensures LineEnd(buf, e) == e
  {
    LineEndIs(buf, e, e);
  }

  /** The lines that are left from p on. */
  function LinesAt(buf: string, p: nat): seq<string>
    requires p <= |buf| + 1
  {
    if p > |buf| then [] else Lines(buf[p..])
  }

  lemma LinesAtStep(buf: string, p: nat)
    requires p <= |buf|
    ensures LinesAt(buf, p) == [buf[p..LineEnd(buf, p)]] + LinesAt(buf, LineEnd(buf, p) + 1)
  {
    hide LineEnd, Lines;
    LinesFrom(buf, p);
  }

  /** How the parse goes on from one line to the rest. */
  lemma ParseOne(lines: seq<string>, line: string, rest: seq<string>, scan: Scan, conf: Conf)
    requires lines == [line] + rest
    ensures var t := TrimLeft(line);
      Parse(lines, scan, conf) ==
      if Starts(t, '@') then
        if SwitchOff(t[1..]) then ClosedAll else Parse(rest, Collected(scan, line), conf)
      else if Starts(t, '-') && scan.Inside? then
        if "-end" <= t then
          match BlockOf(scan.block, None)
          case BlockOverrun => Overrun
          case NoMode => Parse(rest, Outside, conf)
          case Made(mode) => Parse(rest, Outside, Added(conf, mode))
        else Done(conf)
      else if Starts(t, '-') then Parse(rest, Inside([t[1..]]), conf)
      else Parse(rest, Collected(scan, line), conf)
  {
    hide TrimLeft, SwitchOff, BlockOf;
    assert lines[0] == line && lines[1..] == rest;
  }

  /** The block's complete lines stand between its start and p. */
  ghost predicate BlockIn(buf: string, start: nat, p: nat, scan: Scan) {
    scan.Inside? ==> start <= p <= |buf| && buf[start..p] == Unlines(scan.block) && NoNewlines(scan.block)
  }

  lemma {:induction false} UnlinesOne(lines: seq<string>, line: string)
    ensures Unlines(lines + [line]) == Unlines(lines) + (line + "\n")
  {
    if |lines| == 0 {
      assert [line][1..] == [] && Unlines([line]) == line + "\n" + Unlines([]);
      assert [] + [line] == [line];
    } else {
      UnlinesOne(lines[1..], line);
      assert (lines + [line])[1..] == lines[1..] + [line] && (lines + [line])[0] == lines[0];
      Associates(lines[0] + "\n", Unlines(lines[1..]), line + "\n");
    }
  }

  lemma LineNoNewline(buf: string, p: nat, q: nat)
    requires p <= |buf| && p <= q <= LineEnd(buf, p)
    ensures '\n' !in buf[p..q]
  {
    LineEndHas(buf, p);
  }

  /** A complete line more belongs to the block. */
  lemma BlockGrows(buf: string, start: nat, p: nat, scan: Scan)
    requires p <= |buf| && BlockIn(buf, start, p, scan)
    ensures LineEnd(buf, p) < |buf| ==>
      BlockIn(buf, start, LineEnd(buf, p) + 1, Collected(scan, buf[p..LineEnd(buf, p)]))
  {
    hide LineEnd, Unlines;
    var e := LineEnd(buf, p);
    LineEndStops(buf, p);
    LineNoNewline(buf, p, e);
    if e < |buf| && scan.Inside? {
      UnlinesOne(scan.block, buf[p..e]);
      assert buf[start..e + 1] == buf[start..p] + (buf[p..e] + "\n");
    }
  }

  lemma BlockStarts(buf: string, p: nat)
    requires p <= |buf|
    ensures LineEnd(buf, p) < |buf| ==> BlockIn(buf, p, LineEnd(buf, p) + 1, Inside([buf[p..LineEnd(buf, p)]]))
  {
    BlockGrows(buf, p, p, Inside([]));
    assert [] + [buf[p..LineEnd(buf, p)]] == [buf[p..LineEnd(buf, p)]];
    hide LineEnd, Unlines;
  }

  /** The text up to an -end has the block's lines, and the blanks before it. */
  lemma BlockDone(buf: string, start: nat, p: nat, q: nat, scan: Scan)
    requires p <= |buf| && scan.Inside? && BlockIn(buf, start, p, scan) && p <= q <= LineEnd(buf, p)
    ensures start <= q && BlockLines(buf[start..q], 0) == scan.block
  {
    LineNoNewline(buf, p, q);
    IndexIs(buf[p..q], '\n', q - p);
    assert Lines(buf[p..q]) == [buf[p..q]];
    hide Lines, LineEnd, Index, Unlines;
    LinesOfUnlines(scan.block, buf[p..q]);
    assert buf[start..q] == Unlines(scan.block) + buf[p..q];
    assert buf[start..q][0..] == buf[start..q];
    assert ButLast(scan.block + [buf[p..q]]) == scan.block;
  }

  /** What stands at p tells how the rest of the line begins. */
  lemma FirstChar(buf: string, p: nat, c: char)
    requires p <= |buf| && c != '\n' && c != '\0'
    ensures Starts(buf[p..LineEnd(buf, p)], c) <==> At(buf, p) == c
  {
    LineEndHas(buf, p);
  }

  lemma EndWord(buf: string, p: nat)
    requires p <= |buf|
    ensures "-end" <= buf[p..] <==> "-end" <= buf[p..LineEnd(buf, p)]
  {
    hide LineEnd;
    LineEndHas(buf, p);
    assert buf[p..LineEnd(buf, p)] == buf[p..][..LineEnd(buf, p) - p];
  }

  /** Past the last line nothing is left, and an empty last line says nothing. */
  lemma NothingLeft(buf: string, scan: Scan, conf: Conf)
    ensures Parse(LinesAt(buf, |buf|), scan, conf) == Done(conf)
    ensures Parse(LinesAt(buf, |buf| + 1), scan, conf) == Done(conf)
  {
    assert buf[|buf|..] == "" && Lines("") == [""] && [""][1..] == [];
  }

  method ParseBuffer(buf: string) returns (out: Outcome)
    ensures out == Parse(Lines(buf), Outside, EMPTY)
  {
    hide Parse, Lines, LinesAt, LineEnd, TrimLeft, SwitchOff, BlockOf, BlockLines, BlockIn, At, Starts, Added;
    var p: nat := 0;
    var conf := EMPTY;
    var outside := true;
    var blockStart: nat := 0;
    ghost var scan := Outside;
    ParseStarts(buf);
    while p < |buf|
      invariant p <= |buf| + 1
      invariant Parse(LinesAt(buf, p), scan, conf) == Parse(Lines(buf), Outside, EMPTY)
      invariant outside == scan.Outside? && (p <= |buf| ==> BlockIn(buf, blockStart, p, scan))
      decreases |buf| + 1 - p
    {
      ghost var start, e := p, LineEnd(buf, p);
      ghost var line, rest := buf[start..e], LinesAt(buf, e + 1);
      LinesAtStep(buf, start);
      ParseOne(LinesAt(buf, start), line, rest, scan, conf);
      BlockGrows(buf, blockStart, start, scan);
      p := SkipBlanks(buf, p);
      FirstChars(buf, p);
      if At(buf, p) == '#' {
        p := SkipLine(buf, p);
        LineEndStops(buf, start);
        HashEnds(buf, e);
      }
      if At(buf, p) == '@' {
        assert Starts(TrimLeft(line), '@');
        p := p + 1;
        assert TrimLeft(line)[1..] == buf[p..e];
        LineEndFrom(buf, start, p);
        var off;
        off, p := SwitchedOff(buf, p);
        if off {
          return ClosedAll;
        }
        scan := Collected(scan, line);
      } else {
        if At(buf, p) == '-' && !outside {
          EndWord(buf, p);
          if !("-end" <= buf[p..]) {
            return Done(conf);
          }
          BlockDone(buf, blockStart, start, p, scan);
          var block := HandleConfBlock(buf[blockStart..p]);
          match block {
            case BlockOverrun => return Overrun;
            case NoMode =>
            case Made(mode) => conf := Added(conf, mode);
          }
          outside := true;
          scan := Outside;
          OutsideAnyBlock(buf, blockStart, e + 1);
        } else if At(buf, p) == '-' {
          p := p + 1;
          blockStart := p;
          outside := false;
          LineEndFrom(buf, start, p);
          BlockStarts(buf, p);
          scan := Inside([buf[p..e]]);
        } else {
          scan := Collected(scan, line);
        }
        LineEndFrom(buf, start, p);
        p := SkipLine(buf, p);
        if p == |buf| {
          NothingLeft(buf, scan, conf);
          break;
        }
      }
      p := p + 1;
    }
    NothingLeft(buf, scan, conf);
    out := Done(conf);
  }

  lemma ParseStarts(buf: string)
    ensures LinesAt(buf, 0) == Lines(buf) && BlockIn(buf, 0, 0, Outside)
  {
    assert buf[0..] == buf;
  }

  lemma OutsideAnyBlock(buf: string, start: nat, p: nat)
    ensures BlockIn(buf, start, p, Outside)
  {
  }

  lemma FirstChars(buf: string, p: nat)
    requires p <= |buf|
    ensures var t := buf[p..LineEnd(buf, p)];
      && (Starts(t, '#') <==> At(buf, p) == '#') && (Starts(t, '@') <==> At(buf, p) == '@')
      && (Starts(t, '-') <==> At(buf, p) == '-')
    ensures At(buf, p) == '@' || At(buf, p) == '-' ==> p < LineEnd(buf, p)
  {
    FirstChar(buf, p, '#');
    FirstChar(buf, p, '@');
    FirstChar(buf, p, '-');
    hide LineEnd, At;
  }

  /** At the end of a line there is neither of the signs. */
  lemma HashEnds(buf: string, e: nat)
    requires e <= |buf| && (e < |buf| ==> buf[e] == '\n')
    ensures At(buf, e) != '@' && At(buf, e) != '-'
  {
  }

  // ---- The manager ----

  /** The first pair of that name. */
  function Lookup(pairs: seq<Pair>, name: string): Option<string> {
    if |pairs| == 0 then None
    else if pairs[0].0 == name then Some(pairs[0].1)
    else Lookup(pairs[1..], name)
  }

  predicate IsFirst(pairs: seq<Pair>, name: string, i: int) {
    0 <= i < |pairs| && pairs[i].0 == name && forall j :: 0 <= j < i ==> pairs[j].0 != name
  }

  /** The value found is that of the first pair with the name, and none is found only where there is no such pair. */
  lemma {:induction false} LookupFindsTheFirst(pairs: seq<Pair>, name: string)
    ensures Lookup(pairs, name).None? <==> forall i :: 0 <= i < |pairs| ==> pairs[i].0 != name
    ensures forall i :: IsFirst(pairs, name, i) ==> Lookup(pairs, name) == Some(pairs[i].1)
  {
    if |pairs| > 0 && pairs[0].0 != name {
      LookupFindsTheFirst(pairs[1..], name);
      forall i | IsFirst(pairs, name, i)
        ensures Lookup(pairs, name) == Some(pairs[i].1)
      {
        assert pairs[1..][i - 1] == pairs[i];
        assert forall j :: 0 <= j < i - 1 ==> pairs[1..][j] == pairs[j + 1];
        assert IsFirst(pairs[1..], name, i - 1);
      }
      assert forall i :: 0 < i < |pairs| ==> pairs[i] == pairs[1..][i - 1];
    }
  }

  method GetValue(pairs: seq<Pair>, name: string) returns (value: Option<string>)
    ensures value == Lookup(pairs, name)
  {
    var i := 0;
    assert pairs[0..] == pairs;
    while i < |pairs|
      invariant i <= |pairs| && Lookup(pairs, name) == Lookup(pairs[i..], name)
    {
      if pairs[i].0 == name {
        return Some(pairs[i].1);
      }
      assert pairs[i..][1..] == pairs[i + 1..];
      i := i + 1;
    }
    value := None;
  }

  class ConfManager {
    /** The table, none before it is made and after it is destroyed. */
    var table: Option<map<string, seq<Pair>>>
    var modeCount: nat
    var initialized: bool

    constructor ()
      ensures !initialized && table == None && modeCount == 0
    {
      table, modeCount, initialized := None, 0, false;
    }

    /**
     * Reads a file, which may be missing, given that there is memory for it or not. A second call is refused and
     * changes nothing. Overrun tells that a mode line was too long for its buffer; then nothing else is promised.
     */
    method GetConfInfoFromFile(file: Option<string>, hasMemory: bool) returns (ret: int, overrun: bool)
      modifies this
      ensures initialized
      ensures overrun <==>
        !old(initialized) && file.Some? && hasMemory && SomeBlockOverruns(FileLines(file.value), Outside)
      ensures old(initialized) ==>
        ret == REPEAT_INIT_ERR && table == old(table) && modeCount == old(modeCount)
      ensures !old(initialized) && (file.None? || !hasMemory) ==>
        ret == (if file.None? then OPEN_FILE_ERR else MALLOC_BUF_ERR) && table == Some(map[]) && modeCount == 0
      ensures !old(initialized) && file.Some? && hasMemory ==>
        match Meaning(file.value)
        case Done(conf) => ret == 0 && table == Some(conf.table) && modeCount == conf.count
        case ClosedAll => ret == CONF_CLOSE_ALL && table == None
        case Overrun => overrun
    {
      hide SomeBlockOverruns;
      overrun := false;
      if initialized {
        ret := REPEAT_INIT_ERR;
        return;
      }
      table, modeCount, initialized := Some(map[]), 0, true;
      if file.None? {
        ret := OPEN_FILE_ERR;
        return;
      }
      if !hasMemory {
        ret := MALLOC_BUF_ERR;
        return;
      }
      var text := file.value;
      var buf := if |text| > MAX_CONF_FILE_SIZE then text[..MAX_CONF_FILE_SIZE] else text;
      MeaningOverrunsExactly(text);
      var out := ParseBuffer(buf);
      match out
      case Done(conf) => ret, table, modeCount := 0, Some(conf.table), conf.count;
      case ClosedAll => ret, table := CONF_CLOSE_ALL, None;
      case Overrun => ret, overrun := 0, true;
    }
  }
}
