/**
 The configuration editor's env files: parsing, serializing, applying a form.
 Text is a sequence of characters.
 */
module EnvFile {
  import opened Wrappers

  datatype EnvLine =
    | Comment(raw: string)
    | Blank
    | Variable(key: string, value: string)

  // ---------- strings.TrimSpace, strings.Cut, strings.Split ----------

  /** unicode.IsSpace. */
  predicate IsSpace(c: char) {
    || c in {'\t', '\n', '\U{000B}', '\U{000C}', '\r', ' ', '\U{0085}', '\U{00A0}', '\U{1680}'}
    || '\U{2000}' <= c <= '\U{200A}'
    || c in {'\U{2028}', '\U{2029}', '\U{202F}', '\U{205F}', '\U{3000}'}
  }

  function TrimLeft(s: string): string {
    if s != [] && IsSpace(s[0]) then TrimLeft(s[1..]) else s
  }

  function TrimRight(s: string): string {
    if s != [] && IsSpace(s[|s| - 1]) then TrimRight(s[..|s| - 1]) else s
  }

  function Trim(s: string): string {
    TrimRight(TrimLeft(s))
  }

  predicate Trimmed(s: string) {
    s == [] || (!IsSpace(s[0]) && !IsSpace(s[|s| - 1]))
  }

  function Before(s: string, sep: char): string {
    if s == [] || s[0] == sep then [] else [s[0]] + Before(s[1..], sep)
  }

  function After(s: string, sep: char): string {
    if s == [] then [] else if s[0] == sep then s[1..] else After(s[1..], sep)
  }

  function Split(s: string): (lines: seq<string>)
    ensures |lines| >= 1
  {
    if s == [] then [[]]
    else
      var rest := Split(s[1..]);
      if s[0] == '\n' then [[]] + rest else [[s[0]] + rest[0]] + rest[1..]
  }

  // ---------- the code ----------

  datatype ParseError = EmptyKey(line: string)

  function NewVariable(key: string, value: string): Option<EnvLine> {
    var k := Trim(key);
    if k == [] then None else Some(Variable(k, Trim(value)))
  }

  function ParseLine(line: string): Option<EnvLine> {
    var trimmed := Trim(line);
    if trimmed == [] then Some(Blank)
    else if trimmed[0] == '#' || '=' !in line then Some(Comment(line))
    else NewVariable(Before(line, '='), After(line, '='))
  }

  function ParseLines(lines: seq<string>): Result<seq<EnvLine>, ParseError> {
    if lines == [] then Ok([])
    else
      match ParseLine(lines[0])
      case None => Err(EmptyKey(lines[0]))
      case Some(e) =>
        match ParseLines(lines[1..])
        case Ok(es) => Ok([e] + es)
        case Err(err) => Err(err)
  }

  function Lines(content: string): seq<string> {
    var ls := Split(content);
    if ls[|ls| - 1] == [] then ls[..|ls| - 1] else ls
  }

  method ParseEnv(content: string) returns (r: Result<seq<EnvLine>, ParseError>)
    ensures r == ParseLines(Lines(content))
  {
    var lines := Lines(content);
    var entries: seq<EnvLine> := [];
    var i := 0;
    assert lines[0..] == lines;
    PrependNothing(ParseLines(lines));
    while i < |lines|
      invariant i <= |lines|
      invariant ParseLines(lines) == Prepend(entries, ParseLines(lines[i..]))
    {
      ghost var rest := lines[i..];
      assert rest[0] == lines[i] && rest[1..] == lines[i + 1..];
      match ParseLine(lines[i]) {
        case None => return Err(EmptyKey(lines[i]));
        case Some(e) =>
          PrependOne(entries, e, ParseLines(lines[i + 1..]));
          assert ParseLines(rest) == Prepend([e], ParseLines(lines[i + 1..]));
          entries := entries + [e];
      }
      i := i + 1;
    }
    r := Ok(entries);
    assert lines[i..] == [] && entries + [] == entries;
  }

  lemma PrependNothing(r: Result<seq<EnvLine>, ParseError>)
    ensures Prepend([], r) == r
  {
    if r.Ok? {
      assert [] + r.value == r.value;
    }
  }

  function Prepend(es: seq<EnvLine>, r: Result<seq<EnvLine>, ParseError>): Result<seq<EnvLine>, ParseError> {
    match r
    case Ok(rest) => Ok(es + rest)
    case Err(err) => Err(err)
  }

  lemma PrependOne(es: seq<EnvLine>, e: EnvLine, r: Result<seq<EnvLine>, ParseError>)
    ensures Prepend(es, Prepend([e], r)) == Prepend(es + [e], r)
  {
    if r.Ok? {
      assert es + ([e] + r.value) == es + [e] + r.value;
    }
  }

  function Text(e: EnvLine): string {
    match e
    case Comment(raw) => raw
    case Blank => []
    case Variable(key, value) => key + "=" + value
  }

  function Serialized(es: seq<EnvLine>): string {
    if es == [] then [] else Text(es[0]) + "\n" + Serialized(es[1..])
  }

  method Serialize(entries: seq<EnvLine>) returns (b: string)
    ensures b == Serialized(entries)
  {
    b := "";
    var i := 0;
    while i < |entries|
      invariant i <= |entries|
      invariant b + Serialized(entries[i..]) == Serialized(entries)
    {
      ghost var start, rest := b, Serialized(entries[i + 1..]);
      assert entries[i..][1..] == entries[i + 1..];
      match entries[i] {
        case Comment(raw) => b := b + raw;
        case Blank =>
        case Variable(key, value) => b := b + key; b := b + "="; b := b + value;
      }
      assert b == start + Text(entries[i]);
      b := b + "\n";
      JoinLine(start, Text(entries[i]), rest);
      i := i + 1;
    }
    assert b + [] == b;
  }

  lemma JoinLine(a: string, text: string, rest: string)
    ensures (a + text + "\n") + rest == a + (text + "\n" + rest)
  {
  }

  // ---------- trimming ----------

  lemma {:induction false} TrimLeftShape(s: string)
    ensures TrimLeft(s) != [] ==> !IsSpace(TrimLeft(s)[0])
    ensures |TrimLeft(s)| <= |s| && s[|s| - |TrimLeft(s)|..] == TrimLeft(s)
    ensures forall c | c in TrimLeft(s) :: c in s
  {
    if s != [] && IsSpace(s[0]) {
      TrimLeftShape(s[1..]);
    }
  }

  lemma {:induction false} TrimRightShape(s: string)
    ensures TrimRight(s) != [] ==> !IsSpace(TrimRight(s)[|TrimRight(s)| - 1])
    ensures |TrimRight(s)| <= |s| && s[..|TrimRight(s)|] == TrimRight(s)
    ensures s != [] && !IsSpace(s[0]) ==> TrimRight(s) != []
  {
    if s != [] && IsSpace(s[|s| - 1]) {
      TrimRightShape(s[..|s| - 1]);
    }
  }

  lemma TrimShape(s: string)
    ensures Trimmed(Trim(s)) && |Trim(s)| <= |s|
    ensures forall c | c in Trim(s) :: c in s
    ensures Trimmed(s) ==> Trim(s) == s
    ensures Trim(s) == [] <==> TrimLeft(s) == []
    ensures Trim(s) != [] ==> Trim(s)[0] == TrimLeft(s)[0]
  {
    TrimLeftShape(s);
    TrimRightShape(TrimLeft(s));
  }

  /** A line's first visible character is that of its part before the separator, if that part has one. */
  lemma {:induction false} FirstVisible(s: string, sep: char)
    requires !IsSpace(sep)
    ensures TrimLeft(Before(s, sep)) != [] ==> TrimLeft(s) != [] && TrimLeft(s)[0] == TrimLeft(Before(s, sep))[0]
  {
    if s != [] && s[0] != sep {
      var b := Before(s, sep);
      assert b[0] == s[0] && b[1..] == Before(s[1..], sep);
      if IsSpace(s[0]) {
        FirstVisible(s[1..], sep);
      }
    }
  }

  lemma {:induction false} BeforeAfter(s: string, sep: char)
    ensures sep !in Before(s, sep)
    ensures forall c | c in Before(s, sep) :: c in s
    ensures forall c | c in After(s, sep) :: c in s
  {
    if s != [] && s[0] != sep {
      BeforeAfter(s[1..], sep);
    }
  }

  lemma {:induction false} CutJoined(a: string, b: string, sep: char)
    ensures sep !in a ==> Before(a + [sep] + b, sep) == a && After(a + [sep] + b, sep) == b
    ensures sep in a ==> |Before(a + [sep] + b, sep)| < |a|
  {
    var s := a + [sep] + b;
    if a == [] {
      assert s[1..] == b;
    } else {
      assert s[1..] == a[1..] + [sep] + b;
      if a[0] != sep {
        CutJoined(a[1..], b, sep);
      }
    }
  }

  // ---------- what the code computes, said once more without its helpers ----------

  predicate AllSpace(s: string) {
    forall c | c in s :: IsSpace(c)
  }

  /** Trim takes away spaces at both ends and nothing else. */
  lemma {:induction false} TrimIsTheMiddle(s: string) returns (left: string, right: string)
    ensures s == left + Trim(s) + right && AllSpace(left) && AllSpace(right) && Trimmed(Trim(s))
  {
    TrimShape(s);
    if s != [] && IsSpace(s[0]) {
      left, right := TrimIsTheMiddle(s[1..]);
      left := [s[0]] + left;
      assert s == [s[0]] + s[1..];
    } else {
      left := [];
      right := TrimRightRest(s);
    }
  }

  lemma {:induction false} TrimRightRest(s: string) returns (right: string)
    ensures s == TrimRight(s) + right && AllSpace(right)
  {
    if s != [] && IsSpace(s[|s| - 1]) {
      right := TrimRightRest(s[..|s| - 1]);
      right := right + [s[|s| - 1]];
    } else {
      right := [];
    }
  }

  /** Cut at its first equals sign, a line that is neither blank nor a comment is a variable or has no key. */
  lemma ParseLineMeans(line: string, b: string, a: string)
    ensures AllSpace(line) ==> ParseLine(line) == Some(Blank)
    ensures !AllSpace(line) && ("#" <= Trim(line) || '=' !in line) ==> ParseLine(line) == Some(Comment(line))
    ensures line == b + "=" + a && '=' !in b && !("#" <= Trim(line)) ==>
      ParseLine(line) == if AllSpace(b) then None else Some(Variable(Trim(b), Trim(a)))
  {
    TrimEmpty(line);
    TrimEmpty(b);
    if line == b + "=" + a && '=' !in b {
      CutJoined(b, a, '=');
      assert b + "=" + a == b + ['='] + a && line[|b|] == '=' && '=' in line;
    }
  }

  lemma TrimEmpty(s: string)
    ensures Trim(s) == [] <==> AllSpace(s)
  {
    var left, right := TrimIsTheMiddle(s);
    if Trim(s) == [] {
      assert s == left + right;
    } else {
      assert s[|left|] == Trim(s)[0] && s[|left|] in s;
    }
  }

  /** Every line gives its entry; the first line without a key is the error. */
  lemma {:induction false} ParseLinesMeans(lines: seq<string>)
    ensures match ParseLines(lines)
      case Ok(es) => |es| == |lines| && forall i | 0 <= i < |lines| :: ParseLine(lines[i]) == Some(es[i])
      case Err(e) => exists i :: 0 <= i < |lines| && FirstBad(lines, i) && e == EmptyKey(lines[i])
  {
    if lines != [] {
      ParseLinesMeans(lines[1..]);
      match ParseLine(lines[0])
      case None => assert FirstBad(lines, 0);
      case Some(_) =>
        match ParseLines(lines[1..])
        case Ok(_) =>
        case Err(e) =>
          var i :| 0 <= i < |lines| - 1 && FirstBad(lines[1..], i) && e == EmptyKey(lines[1..][i]);
          assert forall j | 0 < j <= i :: lines[j] == lines[1..][j - 1];
          assert FirstBad(lines, i + 1);
    }
  }

  predicate FirstBad(lines: seq<string>, i: int)
    requires 0 <= i < |lines|
  {
    ParseLine(lines[i]).None? && forall j | 0 <= j < i :: ParseLine(lines[j]).Some?
  }

  /** A line break at the very end starts no further line. */
  lemma LinesOfFile(content: string)
    ensures Lines([]) == []
    ensures Lines(content + "\n") == Split(content)
    ensures content != [] && content[|content| - 1] != '\n' ==> Lines(content) == Split(content)
  {
    SplitJoined(content, []);
    assert content + "\n" + [] == content + "\n" && Split([]) == [[]];
    if content != [] {
      LastLine(content);
    }
  }

  lemma {:induction false} LastLine(s: string)
    requires s != []
    ensures Split(s)[|Split(s)| - 1] == [] ==> s[|s| - 1] == '\n'
  {
    if |s| > 1 {
      LastLine(s[1..]);
      assert s[1..][|s| - 2] == s[|s| - 1];
    } else {
      SplitLines(s);
    }
  }

  /** The file is the entries' lines, each with its line break. */
  lemma {:induction false} SerializedByLines(a: seq<EnvLine>, b: seq<EnvLine>)
    ensures Serialized(a + b) == Serialized(a) + Serialized(b)
  {
    if a == [] {
      assert a + b == b;
    } else {
      SerializedByLines(a[1..], b);
      assert (a + b)[1..] == a[1..] + b;
      Regroup(Text(a[0]) + "\n", Serialized(a[1..]), Serialized(b));
    }
  }

  lemma Regroup(x: string, y: string, z: string)
    ensures x + y + z == x + (y + z)
  {
  }

  lemma SerializedEntry(e: EnvLine)
    ensures Serialized([e]) == match e
      case Comment(raw) => raw + "\n"
      case Blank => "\n"
      case Variable(key, value) => key + "=" + value + "\n"
  {
    assert [e][1..] == [] && Serialized([e]) == Text(e) + "\n" + "";
    assert "" + "\n" == "\n";
  }

  // ---------- which entries survive being written and read ----------

  predicate OneLine(s: string) {
    '\n' !in s
  }

  predicate Writable(e: EnvLine) {
    match e
    case Blank => true
    case Comment(raw) => OneLine(raw) && Trim(raw) != [] && (Trim(raw)[0] == '#' || '=' !in raw)
    case Variable(key, value) =>
      && key != [] && Trimmed(key) && OneLine(key) && '=' !in key && key[0] != '#'
      && Trimmed(value) && OneLine(value)
  }

  predicate AllWritable(es: seq<EnvLine>) {
    forall e | e in es :: Writable(e)
  }

  lemma WritableJoined(a: seq<EnvLine>, b: seq<EnvLine>)
    ensures AllWritable(a + b) <==> AllWritable(a) && AllWritable(b)
  {
    assert forall e :: e in a + b <==> e in a || e in b;
  }

  lemma WritableOne(e: EnvLine)
    ensures AllWritable([e]) <==> Writable(e)
  {
    assert e in [e];
  }

  lemma ParsedIsWritable(line: string)
    requires OneLine(line) && ParseLine(line).Some?
    ensures Writable(ParseLine(line).value)
  {
    var e := ParseLine(line).value;
    if e.Variable? {
      var b, a := Before(line, '='), After(line, '=');
      BeforeAfter(line, '=');
      TrimShape(b);
      TrimShape(a);
      TrimShape(line);
      FirstVisible(line, '=');
    }
  }

  /** Read back, one line gives the same entry exactly when the entry is writable. */
  lemma LineRoundTrip(e: EnvLine)
    requires OneLine(Text(e))
    ensures ParseLine(Text(e)) == Some(e) <==> Writable(e)
  {
    var line := Text(e);
    if e.Variable? {
      var k, v := e.key, e.value;
      assert line == k + ['='] + v;
      CutJoined(k, v, '=');
      TrimShape(k);
      TrimShape(v);
      TrimShape(line);
      TrimShape(Before(line, '='));
      FirstVisible(line, '=');
      assert line[|k|] == '=';
      if Writable(e) {
        assert TrimLeft(k) == k;
      }
    }
  }

  // ---------- splitting what was serialized ----------

  lemma {:induction false} SplitJoined(a: string, b: string)
    ensures Split(a + "\n" + b) == Split(a) + Split(b)
  {
    var s := a + "\n" + b;
    if a == [] {
      assert s[1..] == b;
    } else {
      assert s[1..] == a[1..] + "\n" + b;
      SplitJoined(a[1..], b);
    }
  }

  lemma {:induction false} SplitLines(s: string)
    ensures forall l | l in Split(s) :: OneLine(l)
    ensures OneLine(s) ==> Split(s) == [s]
    ensures !OneLine(s) ==> |Split(s)| > 1
  {
    if s != [] {
      SplitLines(s[1..]);
      assert s == [s[0]] + s[1..];
      assert OneLine(s) <==> s[0] != '\n' && OneLine(s[1..]);
      assert OneLine(Split(s[1..])[0]);
    }
  }

  function FlatLines(es: seq<EnvLine>): seq<string> {
    if es == [] then [] else Split(Text(es[0])) + FlatLines(es[1..])
  }

  lemma {:induction false} LinesOfSerialized(es: seq<EnvLine>)
    ensures Split(Serialized(es)) == FlatLines(es) + [[]]
    ensures Lines(Serialized(es)) == FlatLines(es)
  {
    if es != [] {
      LinesOfSerialized(es[1..]);
      SplitJoined(Text(es[0]), Serialized(es[1..]));
    }
  }

  lemma {:induction false} FlatLength(es: seq<EnvLine>)
    ensures |FlatLines(es)| >= |es|
    ensures |FlatLines(es)| == |es| <==> forall e | e in es :: OneLine(Text(e))
  {
    if es != [] {
      FlatLength(es[1..]);
      SplitLines(Text(es[0]));
      assert es == [es[0]] + es[1..];
    }
  }

  lemma {:induction false} ParsedLength(lines: seq<string>)
    ensures ParseLines(lines).Ok? ==> |ParseLines(lines).value| == |lines|
  {
    if lines != [] {
      ParsedLength(lines[1..]);
    }
  }

  lemma {:induction false} LinesRoundTrip(es: seq<EnvLine>)
    requires forall e | e in es :: OneLine(Text(e))
    ensures ParseLines(FlatLines(es)) == Ok(es) <==> AllWritable(es)
  {
    if es != [] {
      LinesRoundTrip(es[1..]);
      RoundTripCons(es[0], es[1..]);
      assert es == [es[0]] + es[1..];
    }
  }

  lemma RoundTripCons(e: EnvLine, es: seq<EnvLine>)
    requires OneLine(Text(e)) && (ParseLines(FlatLines(es)) == Ok(es) <==> AllWritable(es))
    ensures ParseLines(FlatLines([e] + es)) == Ok([e] + es) <==> AllWritable([e] + es)
  {
    SplitLines(Text(e));
    LineRoundTrip(e);
    assert ([e] + es)[1..] == es;
    ParsedCons(Text(e), FlatLines(es), e, es);
    WritableOne(e);
    WritableJoined([e], es);
  }

  lemma ParsedCons(line: string, lines: seq<string>, e: EnvLine, es: seq<EnvLine>)
    ensures ParseLines([line] + lines) == Ok([e] + es) <==> ParseLine(line) == Some(e) && ParseLines(lines) == Ok(es)
  {
    assert ([line] + lines)[1..] == lines && ([e] + es)[1..] == es;
    match ParseLine(line)
    case None =>
    case Some(first) =>
      match ParseLines(lines)
      case Err(_) =>
      case Ok(rest) => assert ([first] + rest)[0] == first && ([first] + rest)[1..] == rest;
  }

  /** Writing entries and reading them back is the identity on exactly the lists of writable entries. */
  lemma FileRoundTrip(es: seq<EnvLine>)
    ensures ParseLines(Lines(Serialized(es))) == Ok(es) <==> AllWritable(es)
  {
    LinesOfSerialized(es);
    FlatLength(es);
    ParsedLength(FlatLines(es));
    if forall e | e in es :: OneLine(Text(e)) {
      LinesRoundTrip(es);
    } else {
      var e :| e in es && !OneLine(Text(e));
      assert !Writable(e);
    }
  }

  lemma {:induction false} ParsedFileIsWritable(lines: seq<string>)
    requires ParseLines(lines).Ok? && forall l | l in lines :: OneLine(l)
    ensures AllWritable(ParseLines(lines).value)
  {
    if lines != [] {
      ParsedFileIsWritable(lines[1..]);
      ParsedIsWritable(lines[0]);
    }
  }

  /** Whatever was read from a file survives being written and read again. */
  lemma ParsedFilesRoundTrip(content: string)
    requires ParseLines(Lines(content)).Ok?
    ensures var es := ParseLines(Lines(content)).value;
      AllWritable(es) && ParseLines(Lines(Serialized(es))) == Ok(es)
  {
    SplitLines(content);
    ParsedFileIsWritable(Lines(content));
    FileRoundTrip(ParseLines(Lines(content)).value);
  }

  // ---------- applying a form ----------

  /** Posted fields; a key that is present has a non-nil list, possibly empty. */
  type Form = map<string, seq<string>>

  function Posted(form: Form, name: string): seq<string> {
    if name in form then form[name] else []
  }

  predicate Removed(form: Form, e: EnvLine) {
    e.Variable? && "del_" + e.key in form
  }

  function Edited(form: Form, e: EnvLine): EnvLine {
    if e.Variable? && Posted(form, "val_" + e.key) != []
    then Variable(e.key, Trim(Posted(form, "val_" + e.key)[0]))
    else e
  }

  function Kept(es: seq<EnvLine>, form: Form): seq<EnvLine> {
    if es == [] then []
    else
      var init, last := es[..|es| - 1], es[|es| - 1];
      if Removed(form, last) then Kept(init, form) else Kept(init, form) + [Edited(form, last)]
  }

  /** Entry by entry: deleted by its del_ field, edited by its val_ field, or left as it is. */
  lemma {:induction false} KeptEntryByEntry(a: seq<EnvLine>, b: seq<EnvLine>, form: Form, e: EnvLine)
    ensures Kept(a + b, form) == Kept(a, form) + Kept(b, form)
    ensures Kept([e], form) == match e
      case Variable(key, value) =>
        var (del, val) := ("del_" + key, "val_" + key);
        if del in form then []
        else if val in form && form[val] != [] then [Variable(key, Trim(form[val][0]))]
        else [e]
      case _ => [e]
    decreases |b|
  {
    assert [e][..0] == [];
    if b == [] {
      assert a + b == a;
    } else {
      var n := |b| - 1;
      KeptEntryByEntry(a, b[..n], form, e);
      assert (a + b)[..|a + b| - 1] == a + b[..n];
    }
  }

  function KeysOf(es: seq<EnvLine>): set<string> {
    set e | e in es && e.Variable? :: e.key
  }

  /** The keys in use when new key n comes up. */
  function SeenKeys(present: set<string>, newKeys: seq<string>, n: nat): set<string>
    requires n <= |newKeys|
  {
    if n == 0 then present
    else
      var rest := SeenKeys(present, newKeys, n - 1);
      if Trim(newKeys[n - 1]) != [] then rest + {Trim(newKeys[n - 1])} else rest
  }

  predicate Taken(present: set<string>, newKeys: seq<string>, i: nat)
    requires i < |newKeys|
  {
    Trim(newKeys[i]) != [] && Trim(newKeys[i]) !in SeenKeys(present, newKeys, i)
  }

  /** New key i is taken unless it is blank, still present, or was offered before. */
  lemma TakenIff(present: set<string>, newKeys: seq<string>, i: nat)
    requires i < |newKeys|
    ensures Taken(present, newKeys, i) <==>
      var k := Trim(newKeys[i]);
      k != [] && k !in present && forall j | 0 <= j < i :: Trim(newKeys[j]) != k
  {
    if Trim(newKeys[i]) != [] {
      SeenIff(present, newKeys, i, Trim(newKeys[i]));
    }
  }

  lemma {:induction false} SeenIff(present: set<string>, newKeys: seq<string>, n: nat, k: string)
    requires n <= |newKeys| && k != []
    ensures k in SeenKeys(present, newKeys, n) <==> k in present || exists j :: 0 <= j < n && Trim(newKeys[j]) == k
  {
    if n > 0 {
      SeenIff(present, newKeys, n - 1, k);
    }
  }

  function Offered(newKeys: seq<string>, newVals: seq<string>, i: nat): EnvLine
    requires i < |newKeys|
  {
    Variable(Trim(newKeys[i]), if i < |newVals| then Trim(newVals[i]) else "")
  }

  function Added(newKeys: seq<string>, newVals: seq<string>, present: set<string>, n: nat): seq<EnvLine>
    requires n <= |newKeys|
  {
    if n == 0 then []
    else
      var rest := Added(newKeys, newVals, present, n - 1);
      if Taken(present, newKeys, n - 1) then rest + [Offered(newKeys, newVals, n - 1)] else rest
  }

  /** New key n is appended, with its value if one came with it, unless it is blank, still present or came before. */
  lemma AddedKeyByKey(newKeys: seq<string>, newVals: seq<string>, present: set<string>, n: nat)
    requires n < |newKeys|
    ensures Added(newKeys, newVals, present, 0) == []
    ensures var k := Trim(newKeys[n]);
      Added(newKeys, newVals, present, n + 1) == Added(newKeys, newVals, present, n) +
        if k != "" && k !in present && forall j | 0 <= j < n :: Trim(newKeys[j]) != k
        then [Variable(k, if n < |newVals| then Trim(newVals[n]) else "")] else []
  {
    TakenIff(present, newKeys, n);
  }

  function Applied(es: seq<EnvLine>, form: Form): seq<EnvLine> {
    var kept := Kept(es, form);
    var newKeys := Posted(form, "new_keys");
    kept + Added(newKeys, Posted(form, "new_values"), KeysOf(kept), |newKeys|)
  }

  method ApplyForm(entries: seq<EnvLine>, form: Form) returns (result: seq<EnvLine>)
    ensures result == Applied(entries, form)
    ensures var newKeys := if "new_keys" in form then form["new_keys"] else [];
      var newVals := if "new_values" in form then form["new_values"] else [];
      result == Kept(entries, form) + Added(newKeys, newVals, KeysOf(Kept(entries, form)), |newKeys|)
  {
    var seen;
    result, seen := EditEntries(entries, form);
    result := AddEntries(result, seen, Posted(form, "new_keys"), Posted(form, "new_values"));
  }

  method EditEntries(entries: seq<EnvLine>, form: Form) returns (result: seq<EnvLine>, seen: set<string>)
    ensures result == Kept(entries, form) && seen == KeysOf(result)
    ensures forall k :: k in seen <==> exists v :: Variable(k, v) in result
  {
    result := [];
    seen := {};
    var i := 0;
    while i < |entries|
      invariant i <= |entries|
      invariant result == Kept(entries[..i], form) && seen == KeysOf(result)
    {
      var e := entries[i];
      assert entries[..i + 1][..i] == entries[..i];
      match e {
        case Variable(key, value) =>
          if "del_" + key !in form {
            var v := value;
            var values := Posted(form, "val_" + key);
            if |values| > 0 {
              v := Trim(values[0]);
            }
            result := result + [Variable(key, v)];
            seen := seen + {key};
          }
        case _ => result := result + [e];
      }
      i := i + 1;
    }
    assert entries[..i] == entries;
  }

  method AddEntries(kept: seq<EnvLine>, present: set<string>, newKeys: seq<string>, newVals: seq<string>)
    returns (result: seq<EnvLine>)
    ensures result == kept + Added(newKeys, newVals, present, |newKeys|)
  {
    result := kept;
    var seen := present;
    var i := 0;
    while i < |newKeys|
      invariant i <= |newKeys|
      invariant result == kept + Added(newKeys, newVals, present, i)
      invariant seen == SeenKeys(present, newKeys, i)
    {
      var k := Trim(newKeys[i]);
      var v := if i < |newVals| then Trim(newVals[i]) else "";
      AddedStep(newKeys, newVals, present, i, k, v);
      if k != "" && k !in seen {
        var nv := NewVariable(k, v);
        if nv.Some? {
          result := result + [nv.value];
        }
        seen := seen + {k};
      }
      i := i + 1;
    }
  }

  lemma AddedStep(newKeys: seq<string>, newVals: seq<string>, present: set<string>, i: nat, k: string, v: string)
    requires i < |newKeys| && Offered(newKeys, newVals, i) == Variable(k, v)
    ensures var seen := SeenKeys(present, newKeys, i);
      var added := Added(newKeys, newVals, present, i);
      if k != "" && k !in seen
      then NewVariable(k, v) == Some(Variable(k, v)) && SeenKeys(present, newKeys, i + 1) == seen + {k}
           && Added(newKeys, newVals, present, i + 1) == added + [Variable(k, v)]
      else SeenKeys(present, newKeys, i + 1) == seen && Added(newKeys, newVals, present, i + 1) == added
  {
    if k != "" {
      OfferIsNew(newKeys, newVals, i);
    }
  }

  lemma OfferIsNew(newKeys: seq<string>, newVals: seq<string>, i: nat)
    requires i < |newKeys| && Offered(newKeys, newVals, i).key != []
    ensures var e := Offered(newKeys, newVals, i); NewVariable(e.key, e.value) == Some(e)
  {
    TrimTwice(newKeys[i]);
    if i < |newVals| {
      TrimTwice(newVals[i]);
    }
    TrimTwice("");
  }

  lemma TrimTwice(s: string)
    ensures Trim(Trim(s)) == Trim(s) && Trim("") == ""
  {
    TrimShape(s);
    TrimShape(Trim(s));
  }

  /** The value posted for a surviving variable fits on its line. */
  predicate CleanEdit(form: Form, e: EnvLine) {
    e.Variable? && !Removed(form, e) && Posted(form, "val_" + e.key) != [] ==>
      OneLine(Trim(Posted(form, "val_" + e.key)[0]))
  }

  /** An accepted new key does not read as a comment or contain the separator, and both parts fit on one line. */
  predicate CleanNew(newKeys: seq<string>, newVals: seq<string>, present: set<string>, i: nat)
    requires i < |newKeys|
  {
    Taken(present, newKeys, i) ==>
      var e := Offered(newKeys, newVals, i);
      e.key[0] != '#' && '=' !in e.key && OneLine(e.key) && OneLine(e.value)
  }

  predicate CleanUpTo(newKeys: seq<string>, newVals: seq<string>, present: set<string>, n: nat)
    requires n <= |newKeys|
  {
    n == 0 || (CleanUpTo(newKeys, newVals, present, n - 1) && CleanNew(newKeys, newVals, present, n - 1))
  }

  lemma {:induction false} CleanUpToIff(newKeys: seq<string>, newVals: seq<string>, present: set<string>, n: nat)
    requires n <= |newKeys|
    ensures CleanUpTo(newKeys, newVals, present, n) <==> forall i | 0 <= i < n :: CleanNew(newKeys, newVals, present, i)
  {
    if n > 0 {
      CleanUpToIff(newKeys, newVals, present, n - 1);
    }
  }

  /** A condition on the posted fields alone. */
  predicate CleanForm(es: seq<EnvLine>, form: Form) {
    && (forall e | e in es :: CleanEdit(form, e))
    && var newKeys := Posted(form, "new_keys");
       forall i | 0 <= i < |newKeys| :: CleanNew(newKeys, Posted(form, "new_values"), KeysOf(Kept(es, form)), i)
  }

  lemma EditIsWritable(form: Form, e: EnvLine)
    requires Writable(e) && !Removed(form, e)
    ensures Writable(Edited(form, e)) <==> CleanEdit(form, e)
  {
    if e.Variable? && Posted(form, "val_" + e.key) != [] {
      TrimShape(Posted(form, "val_" + e.key)[0]);
    }
  }

  lemma {:induction false} KeptWritable(es: seq<EnvLine>, form: Form)
    requires AllWritable(es)
    ensures AllWritable(Kept(es, form)) <==> (forall e | e in es :: CleanEdit(form, e))
  {
    if es != [] {
      var init, last := es[..|es| - 1], es[|es| - 1];
      assert forall e :: e in es <==> e in init || e == last;
      KeptWritable(init, form);
      if !Removed(form, last) {
        EditIsWritable(form, last);
        WritableOne(Edited(form, last));
        WritableJoined(Kept(init, form), [Edited(form, last)]);
      }
    }
  }

  lemma OfferIsWritable(newKeys: seq<string>, newVals: seq<string>, present: set<string>, i: nat)
    requires i < |newKeys| && Taken(present, newKeys, i)
    ensures Writable(Offered(newKeys, newVals, i)) <==> CleanNew(newKeys, newVals, present, i)
  {
    TrimShape(newKeys[i]);
    if i < |newVals| {
      TrimShape(newVals[i]);
    }
  }

  lemma {:induction false} AddedWritable(newKeys: seq<string>, newVals: seq<string>, present: set<string>, n: nat)
    requires n <= |newKeys|
    ensures AllWritable(Added(newKeys, newVals, present, n)) <==> CleanUpTo(newKeys, newVals, present, n)
  {
    if n > 0 {
      AddedWritable(newKeys, newVals, present, n - 1);
      OneMoreWritable(newKeys, newVals, present, n - 1, Added(newKeys, newVals, present, n - 1));
    }
  }

  /** New key n keeps a list writable exactly when it is clean. */
  lemma OneMoreWritable(newKeys: seq<string>, newVals: seq<string>, present: set<string>, n: nat, added: seq<EnvLine>)
    requires n < |newKeys|
    ensures AllWritable(if Taken(present, newKeys, n) then added + [Offered(newKeys, newVals, n)] else added)
       <==> AllWritable(added) && CleanNew(newKeys, newVals, present, n)
  {
    if Taken(present, newKeys, n) {
      OfferIsWritable(newKeys, newVals, present, n);
      WritableOne(Offered(newKeys, newVals, n));
      WritableJoined(added, [Offered(newKeys, newVals, n)]);
    }
  }

  /** The saved file reads back as what was saved exactly when the form was clean. */
  lemma SavedFormRoundTrips(es: seq<EnvLine>, form: Form)
    requires AllWritable(es)
    ensures ParseLines(Lines(Serialized(Applied(es, form)))) == Ok(Applied(es, form)) <==> CleanForm(es, form)
  {
    var kept := Kept(es, form);
    var newKeys, newVals := Posted(form, "new_keys"), Posted(form, "new_values");
    var added := Added(newKeys, newVals, KeysOf(kept), |newKeys|);
    FileRoundTrip(kept + added);
    KeptWritable(es, form);
    AddedWritable(newKeys, newVals, KeysOf(kept), |newKeys|);
    CleanUpToIff(newKeys, newVals, KeysOf(kept), |newKeys|);
    WritableJoined(kept, added);
  }

  // ---------- what a form leaves in place ----------

  /** Comments and blank lines as they are, variables reduced to their keys. */
  function Outline(es: seq<EnvLine>): seq<EnvLine> {
    if es == [] then []
    else
      var last := es[|es| - 1];
      Outline(es[..|es| - 1]) + [if last.Variable? then Variable(last.key, "") else last]
  }

  function Survivors(es: seq<EnvLine>, form: Form): seq<EnvLine> {
    if es == [] then []
    else
      var last := es[|es| - 1];
      var rest := Survivors(es[..|es| - 1], form);
      if Removed(form, last) then rest else rest + [last]
  }

  lemma {:induction false} OutlineOfAppended(a: seq<EnvLine>, e: EnvLine)
    ensures Outline(a + [e]) == Outline(a) + [if e.Variable? then Variable(e.key, "") else e]
  {
    assert (a + [e])[..|a|] == a;
  }

  /**
   Comments, blank lines and the variables not deleted stay, in their old
   order, at the head of the result; only a posted value changes a value.
   */
  lemma {:induction false} FormKeepsTheRest(es: seq<EnvLine>, form: Form)
    ensures Kept(es, form) <= Applied(es, form)
    ensures |Kept(es, form)| == |Survivors(es, form)|
    ensures forall i | 0 <= i < |Kept(es, form)| :: Kept(es, form)[i] == Edited(form, Survivors(es, form)[i])
    ensures Outline(Kept(es, form)) == Outline(Survivors(es, form))
  {
    if es != [] {
      var init, last := es[..|es| - 1], es[|es| - 1];
      FormKeepsTheRest(init, form);
      if !Removed(form, last) {
        OutlineOfAppended(Kept(init, form), Edited(form, last));
        OutlineOfAppended(Survivors(init, form), last);
      }
    }
  }
}
