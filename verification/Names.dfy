/** The name conversions of the CLI generator (cli/generator/names.go), on ASCII names. */
module Names {

  predicate Ascii(s: string) { forall i :: 0 <= i < |s| ==> s[i] < 128 as char }

  predicate IsUpper(c: char) { 'A' <= c <= 'Z' }

  predicate IsLower(c: char) { 'a' <= c <= 'z' }

  predicate IsSpace(c: char) { c == ' ' || '\t' <= c <= '\r' }

  function Lower(c: char): char {
    if IsUpper(c) then c - 'A' + 'a' else c
  }

  function Upper(c: char): char {
    if IsLower(c) then c - 'a' + 'A' else c
  }

  // ----- the library calls the conversions make -----

  function TrimLeft(s: string): string {
    if s != "" && IsSpace(s[0]) then TrimLeft(s[1..]) else s
  }

  function TrimRight(s: string): string {
    if s != "" && IsSpace(s[|s| - 1]) then TrimRight(s[..|s| - 1]) else s
  }

  function TrimSpace(s: string): string { TrimRight(TrimLeft(s)) }

  function DashToUnderscore(s: string): string {
    seq(|s|, i requires 0 <= i < |s| => if s[i] == '-' then '_' else s[i])
  }

  function ToLower(s: string): string {
    seq(|s|, i requires 0 <= i < |s| => Lower(s[i]))
  }

  /** strings.Split on "_". */
  function Split(s: string): (parts: seq<string>)
    ensures |parts| > 0
  {
    if s == "" then [""]
    else
      var rest := Split(s[1..]);
      if s[0] == '_' then [""] + rest else [[s[0]] + rest[0]] + rest[1..]
  }

  // ----- the conversions -----

  /** What toSnake writes for `c`; `joined` when nothing, or a capital, comes before it. */
  function Piece(joined: bool, c: char): string {
    if !IsUpper(c) then [c] else if joined then [Lower(c)] else ['_', Lower(c)]
  }

  function Humps(joined: bool, s: string): string
    decreases |s|
  {
    if s == "" then "" else Piece(joined, s[0]) + Humps(IsUpper(s[0]), s[1..])
  }

  /** One turn of toSnake's loop. */
  lemma Emit(b: string, joined: bool, s: string, i: nat)
    requires i < |s|
    ensures b + Humps(joined, s[i..]) == (b + Piece(joined, s[i])) + Humps(IsUpper(s[i]), s[i + 1..])
  {
    assert s[i..][1..] == s[i + 1..];
  }

  function Snake(s: string): string { ToLower(Humps(true, DashToUnderscore(TrimSpace(s)))) }

  method ToSnake(input: string) returns (r: string)
    requires Ascii(input)
    ensures r == Snake(input)
  {
    var s := DashToUnderscore(TrimSpace(input));
    var b := "";
    ghost var joined := true;
    for i := 0 to |s|
      invariant joined == (i == 0 || IsUpper(s[i - 1]))
      invariant b + Humps(joined, s[i..]) == Humps(true, s)
    {
      Emit(b, joined, s, i);
      ghost var before := b;
      if IsUpper(s[i]) {
        if i > 0 && !IsUpper(s[i - 1]) {
          b := b + "_";
        }
        b := b + [Lower(s[i])];
      } else {
        b := b + [s[i]];
      }
      assert b == before + Piece(joined, s[i]);
      joined := IsUpper(s[i]);
    }
    assert s[|s|..] == "";
    r := ToLower(b);
  }

  function Capital(p: string): string {
    if p == "" then "" else [Upper(p[0])] + p[1..]
  }

  function Capitals(parts: seq<string>): string {
    if parts == [] then "" else Capital(parts[0]) + Capitals(parts[1..])
  }

  /** One turn of toPascal's loop. */
  lemma AppendCapital(b: string, parts: seq<string>, i: nat)
    requires i < |parts|
    ensures b + Capitals(parts[i..]) == (b + Capital(parts[i])) + Capitals(parts[i + 1..])
  {
    assert parts[i..][1..] == parts[i + 1..];
  }

  function Pascal(snake: string): string { Capitals(Split(snake)) }

  method ToPascal(snake: string) returns (r: string)
    requires Ascii(snake)
    ensures r == Pascal(snake)
  {
    var parts := Split(snake);
    r := "";
    for i := 0 to |parts|
      invariant r + Capitals(parts[i..]) == Capitals(parts)
    {
      AppendCapital(r, parts, i);
      ghost var before := r;
      if |parts[i]| == 0 {
        assert r + Capital(parts[i]) == r;
        continue;
      }
      r := r + [Upper(parts[i][0])];
      r := r + parts[i][1..];
      assert r == before + Capital(parts[i]);
    }
  }

  function Camel(pascal: string): string {
    if pascal == "" then "" else pascal[0 := Lower(pascal[0])]
  }

  predicate HasSuffix(s: string, suffix: string) {
    |s| >= |suffix| && s[|s| - |suffix|..] == suffix
  }

  function Table(snake: string): string {
    if HasSuffix(snake, "y") && |snake| > 1 && snake[|snake| - 2] !in "aeiou" then
      snake[..|snake| - 1] + "ies"
    else if HasSuffix(snake, "s") || HasSuffix(snake, "x") || HasSuffix(snake, "z")
            || HasSuffix(snake, "sh") || HasSuffix(snake, "ch") then snake + "es"
    else snake + "s"
  }

  /** Every spelling of one input; module, application and database are set by the caller. */
  datatype Names = Names(original: string, snake: string, pascal: string, camel: string, table: string)

  method NewNames(input: string) returns (n: Names)
    requires Ascii(input)
    ensures n == NamesOf(input)
  {
    var snake := ToSnake(input);
    SnakeIsPlain(input);
    var pascal := ToPascal(snake);
    n := Names(input, snake, pascal, Camel(pascal), Table(snake));
  }

  function NamesOf(input: string): Names {
    var snake := Snake(input);
    Names(input, snake, Pascal(snake), Camel(Pascal(snake)), Table(snake))
  }

  // ----- how the table name ends -----

  lemma EndsInOne(stem: string, d: char, c: char, x: char)
    ensures HasSuffix(stem + [d, c], [x]) <==> c == x
  {
    var s := stem + [d, c];
    assert s[|s| - 1..] == [c];
  }

  lemma EndsInTwo(stem: string, d: char, c: char, x: char, y: char)
    ensures HasSuffix(stem + [d, c], [x, y]) <==> d == x && c == y
  {
    var s := stem + [d, c];
    assert s[|s| - 2..] == [d, c];
  }

  predicate Vowel(c: char) { c in {'a', 'e', 'i', 'o', 'u'} }

  lemma VowelsAre(c: char)
    ensures c in "aeiou" <==> Vowel(c)
  {
  }

  /** The ending is decided by the name's last two letters: -y after anything but a vowel becomes
      -ies; -s, -x, -z, -sh and -ch take -es; all others -s. */
  lemma TableByLastLetters(stem: string, d: char, c: char)
    ensures var s := stem + [d, c];
            Table(s) ==
            if c == 'y' && !Vowel(d) then stem + [d] + "ies"
            else if c in {'s', 'x', 'z'} || (c == 'h' && d in {'s', 'c'}) then s + "es"
            else s + "s"
  {
    var s := stem + [d, c];
    EndsInOne(stem, d, c, 'y');
    EndsInOne(stem, d, c, 's');
    EndsInOne(stem, d, c, 'x');
    EndsInOne(stem, d, c, 'z');
    EndsInTwo(stem, d, c, 's', 'h');
    EndsInTwo(stem, d, c, 'c', 'h');
    VowelsAre(d);
    assert s[|s| - 2] == d && s[..|s| - 1] == stem + [d];
  }

  /** A name of one letter, or none. */
  lemma TableOfOneLetter(c: char)
    ensures Table([c]) == if c in {'s', 'x', 'z'} then [c] + "es" else [c] + "s"
    ensures Table("") == "s"
  {
    assert [c][0..] == [c];
  }

  // ----- blanks around the input make no difference -----

  /** Spaces, tabs and line ends, by their codes. */
  predicate Blank(s: string) { forall i :: 0 <= i < |s| ==> s[i] as int in {9, 10, 11, 12, 13, 32} }

  lemma {:induction false} TrimLeftDrops(pad: string, s: string)
    requires Blank(pad)
    ensures TrimLeft(pad + s) == TrimLeft(s)
  {
    if pad == "" {
      assert pad + s == s;
    } else {
      assert (pad + s)[1..] == pad[1..] + s;
      TrimLeftDrops(pad[1..], s);
    }
  }

  lemma {:induction false} TrimRightDrops(s: string, pad: string)
    requires Blank(pad)
    ensures TrimRight(s + pad) == TrimRight(s)
  {
    if pad == "" {
      assert s + pad == s;
    } else {
      assert (s + pad)[..|s + pad| - 1] == s + pad[..|pad| - 1];
      TrimRightDrops(s, pad[..|pad| - 1]);
    }
  }

  lemma {:induction false} TrimLeftKeepsEnd(s: string, pad: string)
    requires Blank(pad)
    ensures TrimLeft(s + pad) == if Blank(s) then "" else TrimLeft(s) + pad
    ensures Blank(s) ==> TrimLeft(s) == ""
  {
    if Blank(s) {
      TrimLeftDrops(s + pad, "");
      TrimLeftDrops(s, "");
      assert s + pad + "" == s + pad && s + "" == s;
    } else if IsSpace(s[0]) {
      assert (s + pad)[1..] == s[1..] + pad;
      TrimLeftKeepsEnd(s[1..], pad);
    }
  }

  /** toSnake, and with it every spelling, is the same with blanks around the input. */
  lemma SnakeIgnoresBlanks(pad: string, s: string, pad': string)
    requires Blank(pad) && Blank(pad')
    ensures Snake(pad + s + pad') == Snake(s)
  {
    assert pad + s + pad' == pad + (s + pad');
    TrimLeftDrops(pad, s + pad');
    TrimLeftKeepsEnd(s, pad');
    TrimRightDrops(TrimLeft(s), pad');
  }

  // ----- toSnake is idempotent -----

  /** ASCII without capitals or dashes. */
  predicate Plain(s: string) {
    forall i :: 0 <= i < |s| ==> s[i] < 128 as char && !IsUpper(s[i]) && s[i] != '-'
  }

  predicate NoDash(s: string) { forall i :: 0 <= i < |s| ==> s[i] != '-' }

  predicate Trimmed(s: string) { s == "" || (!IsSpace(s[0]) && !IsSpace(s[|s| - 1])) }

  lemma {:induction false} HumpsPlain(joined: bool, s: string)
    requires Ascii(s) && NoDash(s)
    ensures Plain(Humps(joined, s))
    decreases |s|
  {
    if s != "" {
      assert Plain(Piece(joined, s[0]));
      HumpsPlain(IsUpper(s[0]), s[1..]);
    }
  }

  /** The output ends with the input's last character, in lower case, and starts with its first
      one unless an underscore goes before it. */
  lemma {:induction false} HumpsEnds(joined: bool, s: string)
    requires s != ""
    ensures var h := Humps(joined, s);
            h != "" && h[|h| - 1] == Lower(s[|s| - 1]) && (joined ==> h[0] == Lower(s[0]))
    decreases |s|
  {
    if |s| > 1 {
      HumpsEnds(IsUpper(s[0]), s[1..]);
    }
  }

  lemma {:induction false} HumpsFixed(joined: bool, s: string)
    requires forall i :: 0 <= i < |s| ==> !IsUpper(s[i])
    ensures Humps(joined, s) == s
    decreases |s|
  {
    if s != "" {
      HumpsFixed(false, s[1..]);
    }
  }

  lemma {:induction false} TrimLeftWorks(s: string) returns (k: nat)
    ensures k <= |s| && TrimLeft(s) == s[k..]
    ensures TrimLeft(s) == "" || !IsSpace(TrimLeft(s)[0])
  {
    if s != "" && IsSpace(s[0]) {
      k := TrimLeftWorks(s[1..]);
      k := k + 1;
    } else {
      k := 0;
    }
  }

  lemma {:induction false} TrimRightWorks(s: string)
    ensures TrimRight(s) <= s
    ensures TrimRight(s) == "" || !IsSpace(TrimRight(s)[|TrimRight(s)| - 1])
  {
    if s != "" && IsSpace(s[|s| - 1]) {
      TrimRightWorks(s[..|s| - 1]);
    }
  }

  lemma TrimSpaceWorks(s: string)
    ensures Trimmed(TrimSpace(s))
    ensures Ascii(s) ==> Ascii(TrimSpace(s))
  {
    var k := TrimLeftWorks(s);
    TrimRightWorks(TrimLeft(s));
  }

  lemma NoDashFixed(s: string)
    requires NoDash(s)
    ensures DashToUnderscore(s) == s
  {
    forall i | 0 <= i < |s| ensures DashToUnderscore(s)[i] == s[i] {
    }
  }

  lemma SnakeIsPlain(s: string)
    requires Ascii(s)
    ensures Plain(Snake(s)) && Ascii(Snake(s)) && Trimmed(Snake(s))
    ensures Snake(s) == Humps(true, DashToUnderscore(TrimSpace(s)))
  {
    TrimSpaceWorks(s);
    var d := DashToUnderscore(TrimSpace(s));
    HumpsPlain(true, d);
    if d != "" {
      HumpsEnds(true, d);
    }
  }

  lemma TrimmedFixed(s: string)
    requires Trimmed(s)
    ensures TrimSpace(s) == s
  {
  }

  /** On a trimmed name without dashes, toSnake only places underscores and lowers capitals. */
  lemma SnakeOfTight(s: string)
    requires Trimmed(s) && NoDash(s) && Ascii(s)
    ensures Snake(s) == Humps(true, s)
  {
    SnakeIsPlain(s);
    TrimmedFixed(s);
    NoDashFixed(s);
  }

  lemma SnakeIdempotent(s: string)
    requires Ascii(s)
    ensures Snake(Snake(s)) == Snake(s)
  {
    SnakeIsPlain(s);
    SnakeOfTight(Snake(s));
    HumpsFixed(true, Snake(s));
  }

  // ----- the four spellings of one name -----

  predicate WordChar(c: char) { IsLower(c) || '0' <= c <= '9' }

  /** A word: a lower-case letter, then lower-case letters and digits. */
  predicate Word(p: string) {
    p != "" && IsLower(p[0]) && forall i :: 0 <= i < |p| ==> WordChar(p[i])
  }

  predicate Words(words: seq<string>) {
    forall i :: 0 <= i < |words| ==> Word(words[i])
  }

  function Join(words: seq<string>, sep: char): string {
    if words == [] then "" else words[0] + Joined(words[1..], sep)
  }

  /** Each word with the separator before it. */
  function Joined(words: seq<string>, sep: char): string {
    if words == [] then "" else [sep] + words[0] + Joined(words[1..], sep)
  }

  function CamelCase(words: seq<string>): string
    requires words != []
  {
    words[0] + Capitals(words[1..])
  }

  /** The words, other than the last, that are a single letter. */
  function Letters(words: seq<string>): nat {
    if |words| <= 1 then 0 else (if |words[0]| == 1 then 1 else 0) + Letters(words[1..])
  }

  lemma {:induction false} HumpsConcat(joined: bool, a: string, b: string)
    requires a != ""
    ensures Humps(joined, a + b) == Humps(joined, a) + Humps(IsUpper(a[|a| - 1]), b)
    decreases |a|
  {
    assert (a + b)[1..] == a[1..] + b;
    if |a| > 1 {
      HumpsConcat(IsUpper(a[0]), a[1..], b);
    } else {
      assert a[1..] + b == b;
    }
  }

  lemma HumpsOfCapital(joined: bool, p: string)
    requires Word(p)
    ensures Humps(joined, Capital(p)) == if joined then p else "_" + p
  {
    var c := Capital(p);
    assert c[1..] == p[1..];
    HumpsFixed(true, p[1..]);
    assert Lower(c[0]) == p[0];
  }

  lemma HumpsCapital(joined: bool, p: string, rest: string)
    requires Word(p)
    ensures Humps(joined, Capital(p) + rest) ==
            (if joined then p else "_" + p) + Humps(|p| == 1, rest)
  {
    HumpsConcat(joined, Capital(p), rest);
    HumpsOfCapital(joined, p);
    LastOfCapital(p);
  }

  lemma LastOfCapital(p: string)
    requires Word(p)
    ensures IsUpper(Capital(p)[|Capital(p)| - 1]) <==> |p| == 1
  {
  }

  /** The words in snake case, with an underscore before the first one unless `joined`. */
  function Tail(joined: bool, words: seq<string>): string
    requires words != []
  {
    (if joined then words[0] else "_" + words[0]) + Joined(words[1..], '_')
  }

  lemma TailIsJoin(words: seq<string>)
    requires words != []
    ensures Tail(true, words) == Join(words, '_')
    ensures Tail(false, words) == Joined(words, '_')
    ensures |Tail(false, words)| == |Tail(true, words)| + 1
  {
  }

  /** toSnake undoes capitals, but drops one underscore per single-letter word. */
  lemma {:induction false} HumpsCapitals(joined: bool, words: seq<string>)
    requires Words(words) && words != []
    ensures |Humps(joined, Capitals(words))| + Letters(words) == |Tail(joined, words)|
    ensures Letters(words) == 0 ==> Humps(joined, Capitals(words)) == Tail(joined, words)
    decreases |words|
  {
    var p, rest := words[0], words[1..];
    HumpsCapital(joined, p, Capitals(rest));
    if rest != [] {
      HumpsCapitals(|p| == 1, rest);
      TailIsJoin(rest);
    }
  }

  lemma {:induction false} JoinedIsTight(words: seq<string>, sep: char)
    requires Words(words) && (sep == '_' || sep == '-')
    ensures var s := Joined(words, sep);
            && (forall i :: 0 <= i < |s| ==> WordChar(s[i]) || s[i] == sep)
            && (s != "" ==> WordChar(s[|s| - 1]))
  {
    if words != [] {
      JoinedIsTight(words[1..], sep);
    }
  }

  lemma {:induction false} CapitalsAreTight(words: seq<string>)
    requires Words(words)
    ensures var s := Capitals(words);
            && (forall i :: 0 <= i < |s| ==> IsUpper(s[i]) || WordChar(s[i]))
            && (words != [] ==> s != "" && s[0] == Upper(words[0][0]))
  {
    if words != [] {
      CapitalsAreTight(words[1..]);
      assert Word(words[0]);
    }
  }

  /** toSnake turns PascalCase back into snake_case exactly when no word but the last is a
      single letter. */
  lemma PascalToSnake(words: seq<string>)
    requires Words(words) && words != []
    ensures Snake(Capitals(words)) == Join(words, '_') <==> Letters(words) == 0
  {
    CapitalsAreTight(words);
    SnakeOfTight(Capitals(words));
    HumpsCapitals(true, words);
    TailIsJoin(words);
  }

  /** toSnake turns camelCase back exactly when no word but the first and last is one. */
  lemma CamelToSnake(words: seq<string>)
    requires Words(words) && words != []
    ensures Snake(CamelCase(words)) == Join(words, '_') <==> Letters(words[1..]) == 0
  {
    var p, rest := words[0], words[1..];
    CapitalsAreTight(rest);
    SnakeOfTight(p + Capitals(rest));
    HumpsConcat(true, p, Capitals(rest));
    HumpsFixed(true, p);
    if rest != [] {
      HumpsCapitals(false, rest);
      TailIsJoin(rest);
    }
  }

  /** Snake and kebab inputs become snake_case, whatever the words. */
  lemma KebabToSnake(words: seq<string>)
    requires Words(words) && words != []
    ensures Snake(Join(words, '-')) == Join(words, '_') == Snake(Join(words, '_'))
  {
    var kebab, snake := Join(words, '-'), Join(words, '_');
    JoinIsTight(words, '-');
    JoinIsTight(words, '_');
    SnakeOfTight(snake);
    HumpsFixed(true, snake);
    KebabDashes(words);
    SnakeIsPlain(kebab);
    TrimmedFixed(kebab);
  }

  lemma JoinIsTight(words: seq<string>, sep: char)
    requires Words(words) && words != [] && (sep == '_' || sep == '-')
    ensures var s := Join(words, sep);
            Trimmed(s) && Ascii(s) && (forall i :: 0 <= i < |s| ==> !IsUpper(s[i])) && (sep == '_' ==> NoDash(s))
  {
    JoinedIsTight(words[1..], sep);
  }

  lemma KebabDashes(words: seq<string>)
    requires Words(words) && words != []
    ensures DashToUnderscore(Join(words, '-')) == Join(words, '_')
  {
    DashesBecomeUnderscores(words[1..]);
    DashesIn(words[0], Joined(words[1..], '-'));
    NoDashFixed(words[0]);
  }

  lemma DashesIn(a: string, b: string)
    ensures DashToUnderscore(a + b) == DashToUnderscore(a) + DashToUnderscore(b)
  {
  }

  lemma {:induction false} DashesBecomeUnderscores(words: seq<string>)
    requires Words(words)
    ensures DashToUnderscore(Joined(words, '-')) == Joined(words, '_')
  {
    if words != [] {
      DashesBecomeUnderscores(words[1..]);
      NoDashFixed(words[0]);
      DashesIn("-" + words[0], Joined(words[1..], '-'));
      DashesIn("-", words[0]);
      assert DashToUnderscore("-") == "_";
    }
  }

  lemma {:induction false} SplitWords(p: string, words: seq<string>)
    requires Words(words) && forall i :: 0 <= i < |p| ==> WordChar(p[i])
    ensures Split(p + Joined(words, '_')) == [p] + words
    decreases |words|, |p|
  {
    var s := p + Joined(words, '_');
    if p != "" {
      assert s[1..] == p[1..] + Joined(words, '_');
      SplitWords(p[1..], words);
      assert [p[0]] + p[1..] == p;
      assert ([p[1..]] + words)[1..] == words;
    } else if words != [] {
      assert s[1..] == words[0] + Joined(words[1..], '_');
      SplitWords(words[0], words[1..]);
      assert [words[0]] + words[1..] == words;
    }
  }

  lemma PascalOfJoin(words: seq<string>)
    requires Words(words) && words != []
    ensures Pascal(Join(words, '_')) == Capitals(words)
  {
    SplitWords(words[0], words[1..]);
    assert [words[0]] + words[1..] == words;
  }

  ghost predicate HasNames(input: string, words: seq<string>)
    requires words != []
  {
    var snake := Join(words, '_');
    NamesOf(input) == Names(input, snake, Capitals(words), CamelCase(words), Table(snake))
  }

  lemma NamesFromSnake(input: string, words: seq<string>)
    requires Words(words) && words != [] && Snake(input) == Join(words, '_')
    ensures HasNames(input, words)
  {
    PascalOfJoin(words);
    CamelOfCapitals(words[0], Capitals(words[1..]));
  }

  lemma CamelOfCapitals(p: string, rest: string)
    requires Word(p)
    ensures Camel(Capital(p) + rest) == p + rest
  {
    var camel := Camel(Capital(p) + rest);
    assert |camel| == |p| + |rest|;
    forall i | 0 <= i < |camel| ensures camel[i] == (p + rest)[i] {
    }
  }

  /** snake_case, kebab-case, PascalCase and camelCase inputs yield the same names. */
  lemma SpellingsAgree(words: seq<string>)
    requires Words(words) && words != [] && Letters(words) == 0
    ensures HasNames(Join(words, '_'), words) && HasNames(Join(words, '-'), words)
    ensures HasNames(Capitals(words), words) && HasNames(CamelCase(words), words)
  {
    KebabToSnake(words);
    NamesFromSnake(Join(words, '_'), words);
    NamesFromSnake(Join(words, '-'), words);
    PascalToSnake(words);
    NamesFromSnake(Capitals(words), words);
    CamelToSnake(words);
    NamesFromSnake(CamelCase(words), words);
  }

  /** toSnake and toPascal are inverse to each other between these spellings. */
  lemma SnakePascalInverse(words: seq<string>)
    requires Words(words) && words != [] && Letters(words) == 0
    ensures Snake(Pascal(Join(words, '_'))) == Join(words, '_')
    ensures Pascal(Snake(Capitals(words))) == Capitals(words)
  {
    PascalOfJoin(words);
    PascalToSnake(words);
  }
}
