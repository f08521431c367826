/**
 * The string handling around launching workers: the `.jar` name test of
 * `checkJar`, the jar-entry-to-class-name mapping of `checkMainClass`, the
 * decimal rendering of the numeric arguments, and how the launch command
 * is split into the worker's arguments.
 */
module Launch {
  import opened Wrappers
  import opened Exceptions

  predicate EndsWith(s: string, suffix: string) {
    |suffix| <= |s| && s[|s| - |suffix|..] == suffix
  }

  // ---------------------------------------------------------------------
  // checkJar

  /** `checkJar(workerJar)`; `exists` is what `File.exists()` reports.
      `substring(length - 4)` throws on names shorter than four chars. */
  function CheckJar(workerJar: string, fileExists: bool): (r: Outcome<Exception>)
    ensures r.Pass? <==> |workerJar| >= 4 && EndsWith(workerJar, ".jar") && fileExists
    ensures |workerJar| < 4 ==> r == Fail(StringIndexOutOfBounds(|workerJar| - 4))
    ensures |workerJar| >= 4 && !EndsWith(workerJar, ".jar") ==>
              r == Fail(NotAJar(workerJar[|workerJar| - 4..]))
    ensures EndsWith(workerJar, ".jar") && !fileExists ==> r == Fail(FileNotFound(workerJar))
  {
    if |workerJar| < 4 then Fail(StringIndexOutOfBounds(|workerJar| - 4))
    else
      var extension := workerJar[|workerJar| - 4..];
      if extension != ".jar" then Fail(NotAJar(extension))
      else if !fileExists then Fail(FileNotFound(workerJar))
      else Pass
  }

  /** Every existing file named `stem.jar` passes, and a name passes only
      if it is some stem followed by `.jar`. */
  lemma CheckJarOfStem(stem: string, name: string)
    ensures CheckJar(stem + ".jar", true) == Pass
    ensures CheckJar(stem + ".jar", false) == Fail(FileNotFound(stem + ".jar"))
    ensures CheckJar(name, true).Pass? ==> name == name[..|name| - 4] + ".jar"
  {
  }

  // ---------------------------------------------------------------------
  // checkMainClass

  /** `s.replace(from, to)` for one-char strings: every `from` becomes `to`. */
  function ReplaceChar(s: string, from: char, to: char): (r: string)
    ensures |r| == |s|
    ensures forall i :: 0 <= i < |s| ==> r[i] == if s[i] == from then to else s[i]
  {
    seq(|s|, i requires 0 <= i < |s| => if s[i] == from then to else s[i])
  }

  /** `s.replace(target, "")`: removes every occurrence of `target`,
      scanning left to right without overlap. */
  function RemoveAll(s: string, target: string): (r: string)
    requires |target| > 0
    ensures |r| <= |s|
    decreases |s|
  {
    if |s| < |target| then s
    else if s[..|target|] == target then RemoveAll(s[|target|..], target)
    else [s[0]] + RemoveAll(s[1..], target)
  }

  /** Where the class `c` (in package notation) is stored in a jar. */
  function EntryName(c: string): string {
    ReplaceChar(c, '.', '/') + ".class"
  }

  /** The class name `checkMainClass` derives from a `.class` entry, as
      written: `/` becomes `.`, then EVERY ".class" is removed, including
      ones inside package names. */
  function ClassNameAsWritten(entry: string): string {
    RemoveAll(ReplaceChar(entry, '/', '.'), ".class")
  }

  /** The class name of a `.class` entry, removing only the suffix. */
  function ClassName(entry: string): string
    requires EndsWith(entry, ".class")
  {
    ReplaceChar(entry[..|entry| - 6], '/', '.')
  }

  /** The name has no `/`, as a class name in package notation. */
  predicate NoSlash(c: string) {
    forall i :: 0 <= i < |c| ==> c[i] != '/'
  }

  /** The corrected mapping reads back the class stored under any name. */
  lemma ClassNameOfEntry(c: string)
    requires NoSlash(c)
    ensures EndsWith(EntryName(c), ".class")
    ensures ClassName(EntryName(c)) == c
  {
    assert EntryName(c)[..|EntryName(c)| - 6] == ReplaceChar(c, '.', '/');
  }

  lemma RemoveAllLeading(target: string, s: string)
    requires |target| > 0
    ensures RemoveAll(target + s, target) == RemoveAll(s, target)
  {
    assert (target + s)[..|target|] == target;
    assert (target + s)[|target|..] == s;
  }

  lemma RemoveAllKeeps(target: string, c: char, s: string)
    requires |target| > 0
    requires c != target[0]
    ensures RemoveAll([c] + s, target) == [c] + RemoveAll(s, target)
  {
    assert ([c] + s)[1..] == s;
    if |s| + 1 >= |target| {
      assert ([c] + s)[..|target|][0] != target[0];
    }
  }

  lemma RemoveAllKeepsFirst(target: string, c: char, d: char, s: string)
    requires |target| > 1
    requires d != target[1]
    ensures RemoveAll([c, d] + s, target) == [c] + RemoveAll([d] + s, target)
  {
    assert ([c, d] + s)[1..] == [d] + s;
    if |s| + 2 >= |target| {
      assert ([c, d] + s)[..|target|][1] != target[1];
    }
  }

  /** Removing ".class" from ".B.class" leaves ".B". The suffix is a
      parameter pinned by the precondition, rather than the literal, so the
      solver reasons about it through the lemmas above instead of
      unfolding the literal character by character. */
  lemma RemoveClassTail(t: string)
    requires t == ".class"
    ensures RemoveAll(['.', 'B'] + t, t) == ['.', 'B']
  {
    RemoveAllLeading(t, []);
    assert t + [] == t;
    RemoveAllKeeps(t, 'B', t);
    RemoveAllKeepsFirst(t, '.', 'B', t);
  }

  /** Java's `replace` removes the ".class" inside "classy" too. `t` stands
      for ".class" for the same reason as in `RemoveClassTail`. */
  lemma RemoveClassEverywhere(t: string)
    requires t == ".class"
    ensures RemoveAll(['a'] + (t + (['y', '.', 'B'] + t)), t) == ['a', 'y', '.', 'B']
  {
    RemoveClassTail(t);
    RemoveAllKeeps(t, 'y', ['.', 'B'] + t);
    assert ['y'] + (['.', 'B'] + t) == ['y', '.', 'B'] + t;
    RemoveAllLeading(t, ['y', '.', 'B'] + t);
    RemoveAllKeeps(t, 'a', t + (['y', '.', 'B'] + t));
  }

  /** As written, the class `a.classy.B`, stored as `a/classy/B.class`,
      is taken for `ay.B`, so a jar holding it fails the check for
      `a.classy.B`. */
  lemma ClassNameAsWrittenDropsInnerClass(c: string, entry: string)
    requires c == "a.classy.B" && entry == "a/classy/B.class"
    ensures EntryName(c) == entry
    ensures ClassNameAsWritten(entry) == "ay.B" != c
    ensures ClassName(entry) == c
  {
    InnerClassEntry(c, entry);
    InnerClassAsWritten(entry);
    assert "ay.B"[1] != c[1];
  }

  /** `a.classy.B` is stored as `a/classy/B.class`, and the corrected
      mapping reads it back. */
  lemma InnerClassEntry(c: string, entry: string)
    requires c == "a.classy.B" && entry == "a/classy/B.class"
    ensures EntryName(c) == entry
    ensures ClassName(entry) == c
  {
  }

  /** The mapping as written drops both ".class" occurrences of
      `a/classy/B.class`. */
  lemma InnerClassAsWritten(entry: string)
    requires entry == "a/classy/B.class"
    ensures ClassNameAsWritten(entry) == "ay.B"
  {
    var t := ".class";
    assert ReplaceChar(entry, '/', '.') == ['a'] + (t + (['y', '.', 'B'] + t));
    RemoveClassEverywhere(t);
  }

  /** One test of the loop in `checkMainClass`, as written: a `.class`
      entry whose name, mapped by `ClassNameAsWritten`, is `mainClass`. */
  predicate Declares(entry: string, mainClass: string) {
    EndsWith(entry, ".class") && ClassNameAsWritten(entry) == mainClass
  }

  /** Some entry of the jar passes the test of `checkMainClass`. */
  predicate JarDeclares(entries: seq<string>, mainClass: string) {
    exists e :: e in entries && Declares(e, mainClass)
  }

  /** `checkMainClass(workerJar, mainClass)` over the jar's entry names, in
      the order `entries()` enumerates them. */
  method CheckMainClass(entries: seq<string>, mainClass: string) returns (r: Outcome<Exception>)
    ensures r.Pass? <==> exists i :: 0 <= i < |entries| && Declares(entries[i], mainClass)
    ensures r.Pass? <==> JarDeclares(entries, mainClass)
    ensures r.Fail? ==> r.error == ClassNotFound(mainClass)
  {
    var i := 0;
    while i < |entries|
      invariant 0 <= i <= |entries|
      invariant forall j :: 0 <= j < i ==> !Declares(entries[j], mainClass)
    {
      if EndsWith(entries[i], ".class") {
        var className := ClassNameAsWritten(entries[i]);
        if className == mainClass {
          return Pass;
        }
      }
      i := i + 1;
    }
    return Fail(ClassNotFound(mainClass));
  }

  /** The test `checkMainClass` means to make: the entry is the `.class`
      file of `mainClass`, with only the suffix removed. */
  predicate DeclaresIntended(entry: string, mainClass: string) {
    EndsWith(entry, ".class") && ClassName(entry) == mainClass
  }

  predicate JarDeclaresIntended(entries: seq<string>, mainClass: string) {
    exists e :: e in entries && DeclaresIntended(e, mainClass)
  }

  /** `checkMainClass` with the corrected name mapping: it passes exactly
      when the jar holds the class file of `mainClass`. */
  method CheckMainClassIntended(entries: seq<string>, mainClass: string) returns (r: Outcome<Exception>)
    ensures r.Pass? <==> JarDeclaresIntended(entries, mainClass)
    ensures r.Fail? ==> r.error == ClassNotFound(mainClass)
    ensures NoSlash(mainClass) && EntryName(mainClass) in entries ==> r.Pass?
  {
    if NoSlash(mainClass) {
      ClassNameOfEntry(mainClass);
    }
    var i := 0;
    while i < |entries|
      invariant 0 <= i <= |entries|
      invariant forall j :: 0 <= j < i ==> !DeclaresIntended(entries[j], mainClass)
    {
      if EndsWith(entries[i], ".class") {
        var className := ClassName(entries[i]);
        if className == mainClass {
          assert entries[i] in entries;
          return Pass;
        }
      }
      i := i + 1;
    }
    return Fail(ClassNotFound(mainClass));
  }

  /** `t` occurs in `u` at position `p`. */
  predicate MatchAt(u: string, t: string, p: int) {
    0 <= p && p + |t| <= |u| && u[p..p + |t|] == t
  }

  /** `RemoveAll` finds no occurrence of `t` starting inside `s`, and then
      removes the `t` that follows it. */
  lemma {:induction false} RemoveAllTrailing(s: string, t: string)
    requires |t| > 0
    requires forall p :: 0 <= p < |s| ==> !MatchAt(s + t, t, p)
    ensures RemoveAll(s + t, t) == s
    decreases |s|
  {
    if |s| == 0 {
      assert s + t == t;
      assert t[|t|..] == [];
    } else {
      assert !MatchAt(s + t, t, 0);
      assert (s + t)[1..] == s[1..] + t;
      forall p | 0 <= p < |s[1..]|
        ensures !MatchAt(s[1..] + t, t, p)
      {
        assert !MatchAt(s + t, t, p + 1);
        assert (s[1..] + t)[p..p + |t|] == (s + t)[p + 1..p + 1 + |t|];
      }
      RemoveAllTrailing(s[1..], t);
    }
  }

  /** No `.` in the name is directly followed by `c`. */
  predicate NoDotC(c: string) {
    forall i :: 0 <= i < |c| - 1 ==> !(c[i] == '.' && c[i + 1] == 'c')
  }

  /** For a class whose name has no `/` and never `.c`, the mapping as
      written and the corrected one agree on its entry: both checks find
      the class in a jar that stores it. */
  lemma PlainEntryDeclares(c: string)
    requires NoSlash(c)
    requires NoDotC(c)
    ensures Declares(EntryName(c), c)
    ensures DeclaresIntended(EntryName(c), c)
  {
    ClassNameOfEntry(c);
    var t := ".class";
    EntryNameSlashesBack(c, t);
    NoEarlyMatch(c, t);
    RemoveAllTrailing(c, t);
  }

  /** Mapping `/` back to `.` in the entry of a name without `/` gives the
      name followed by the suffix. */
  lemma EntryNameSlashesBack(c: string, t: string)
    requires NoSlash(c)
    requires t == ".class"
    ensures ReplaceChar(EntryName(c), '/', '.') == c + t
  {
    var e := EntryName(c);
    assert e == ReplaceChar(c, '.', '/') + t;
    forall i | 0 <= i < |e|
      ensures ReplaceChar(e, '/', '.')[i] == (c + t)[i]
    {
      if i < |c| {
        assert e[i] == ReplaceChar(c, '.', '/')[i];
      } else {
        assert e[i] == t[i - |c|];
      }
    }
  }

  /** A name that never has `.c` holds no occurrence of a `t` starting with
      `.c`, not even one running into a `t` appended to it. */
  lemma NoEarlyMatch(c: string, t: string)
    requires NoDotC(c)
    requires |t| >= 2 && t[0] == '.' && t[1] == 'c'
    ensures forall p :: 0 <= p < |c| ==> !MatchAt(c + t, t, p)
  {
    forall p | 0 <= p < |c|
      ensures !MatchAt(c + t, t, p)
    {
      assert (c + t)[p] == c[p];
      if p + 1 < |c| {
        assert (c + t)[p + 1] == c[p + 1];
      } else {
        assert (c + t)[p + 1] == t[0];
      }
    }
  }

  // ---------------------------------------------------------------------
  // Decimal rendering of the numeric arguments

  function DigitChar(d: int): char
    requires 0 <= d < 10
  {
    "0123456789"[d]
  }

  predicate IsDigit(c: char) {
    '0' <= c <= '9'
  }

  predicate AllDigits(s: string) {
    forall i :: 0 <= i < |s| ==> IsDigit(s[i])
  }

  function DigitValue(c: char): (d: nat)
    requires IsDigit(c)
    ensures d < 10
  {
    c as int - '0' as int
  }

  lemma DigitValueOfChar(d: int)
    requires 0 <= d < 10
    ensures IsDigit(DigitChar(d)) && DigitValue(DigitChar(d)) == d
  {
  }

  /** `String.valueOf(n)` for `n >= 0`. */
  function NatToString(n: nat): (s: string)
    ensures |s| > 0 && AllDigits(s)
  {
    DigitValueOfChar(n % 10);
    if n < 10 then [DigitChar(n)] else NatToString(n / 10) + [DigitChar(n % 10)]
  }

  /** `String.valueOf(x)` for an int. */
  function IntToString(x: int): (s: string)
    ensures |s| > 0
  {
    if x < 0 then "-" + NatToString(-x) else NatToString(x)
  }

  /** The value of a string of digits. */
  function DigitsValue(s: string): nat
    requires AllDigits(s)
  {
    if |s| == 0 then 0 else DigitsValue(s[..|s| - 1]) * 10 + DigitValue(s[|s| - 1])
  }

  /** A decimal parse: an optional minus sign and at least one digit. */
  function ParseInt(s: string): Option<int> {
    if |s| > 1 && s[0] == '-' && AllDigits(s[1..]) then
      var v: int := DigitsValue(s[1..]);
      Some(-v)
    else if |s| > 0 && AllDigits(s) then Some(DigitsValue(s))
    else None
  }

  lemma {:induction false} NatToStringValue(n: nat)
    ensures DigitsValue(NatToString(n)) == n
  {
    DigitValueOfChar(n % 10);
    if n >= 10 {
      NatToStringValue(n / 10);
      var s := NatToString(n);
      assert s[..|s| - 1] == NatToString(n / 10);
    }
  }

  /** The rendering of an int parses back to it. */
  lemma IntToStringParses(x: int)
    ensures ParseInt(IntToString(x)) == Some(x)
  {
    var s := IntToString(x);
    if x < 0 {
      var t := NatToString(-x);
      NatToStringValue(-x);
      assert s == "-" + t;
      assert s[1..] == t && s[0] == '-';
      assert |s| > 1 && AllDigits(s[1..]);
    } else {
      NatToStringValue(x);
      assert s == NatToString(x);
      assert IsDigit(s[0]) && s[0] != '-';
    }
  }

  // ---------------------------------------------------------------------
  // The launch command

  /** The delimiters of `Runtime.exec(String)`'s tokenizer. */
  predicate IsDelimiter(c: char) {
    c == ' ' || c == '\t' || c == '\n' || c == '\r' || c == 12 as char
  }

  /** A non-empty string with no delimiter in it. */
  predicate IsWord(s: string) {
    |s| > 0 && forall i :: 0 <= i < |s| ==> !IsDelimiter(s[i])
  }

  /** The length of the run of non-delimiters that starts `s`. */
  function WordLength(s: string): (n: nat)
    ensures n <= |s|
    ensures forall i :: 0 <= i < n ==> !IsDelimiter(s[i])
    ensures n < |s| ==> IsDelimiter(s[n])
  {
    if |s| == 0 || IsDelimiter(s[0]) then 0 else 1 + WordLength(s[1..])
  }

  /** How `Runtime.exec(String)` splits a command into an argument array:
      maximal runs of non-delimiters, in order. */
  function Tokenize(s: string): seq<string>
    decreases |s|
  {
    if |s| == 0 then []
    else if IsDelimiter(s[0]) then Tokenize(s[1..])
    else [s[..WordLength(s)]] + Tokenize(s[WordLength(s)..])
  }

  /** The first `k` words joined by spaces, built left to right. */
  function JoinLeft(v: seq<string>, k: nat): string
    requires 1 <= k <= |v|
  {
    if k == 1 then v[0] else JoinLeft(v, k - 1) + " " + v[k - 1]
  }

  /** Words joined by single spaces. */
  function JoinWords(ws: seq<string>): string {
    if |ws| == 0 then ""
    else if |ws| == 1 then ws[0]
    else ws[0] + " " + JoinWords(ws[1..])
  }

  lemma {:induction false} WordLengthOfWord(w: string, rest: string)
    requires IsWord(w)
    requires |rest| == 0 || IsDelimiter(rest[0])
    ensures WordLength(w + rest) == |w|
    decreases |w|
  {
    if |w| > 1 {
      assert (w + rest)[1..] == w[1..] + rest;
      WordLengthOfWord(w[1..], rest);
    } else {
      assert (w + rest)[1..] == rest;
    }
  }

  /** Splitting words joined by spaces gives the words back. */
  lemma {:induction false} TokenizeJoin(ws: seq<string>)
    requires forall i :: 0 <= i < |ws| ==> IsWord(ws[i])
    ensures Tokenize(JoinWords(ws)) == ws
  {
    if |ws| == 1 {
      WordLengthOfWord(ws[0], "");
      assert ws[0] + "" == ws[0];
      assert ws[0][|ws[0]|..] == "";
    } else if |ws| > 1 {
      var rest := " " + JoinWords(ws[1..]);
      WordLengthOfWord(ws[0], rest);
      var s := ws[0] + rest;
      assert JoinWords(ws) == s;
      assert s[..|ws[0]|] == ws[0];
      assert s[|ws[0]|..] == rest;
      assert rest[1..] == JoinWords(ws[1..]);
      TokenizeJoin(ws[1..]);
      assert [ws[0]] + ws[1..] == ws;
    }
  }

  /** What worker `workerIndex` is launched with (`runInternal`). */
  datatype WorkerArgs = WorkerArgs(
    workerJar: string,
    mainClass: string,
    workerClass: string,
    port: int,
    startIndex: int,
    count: int,
    workerIndex: int)

  /** The launch command as `runInternal` builds it for
      `Runtime.exec(String)`: "java", the worker's name option, "-cp", the
      jar, the main class, the worker class and the four numbers, each
      pair separated by one space, concatenated left to right. */
  function CommandLine(a: WorkerArgs): string {
    "java" + " " + ("-Dname=parspice_worker_" + IntToString(a.workerIndex)) +
    " " + "-cp" + " " + a.workerJar +
    " " + a.mainClass +
    " " + a.workerClass +
    " " + IntToString(a.port) +
    " " + IntToString(a.startIndex) +
    " " + IntToString(a.count) +
    " " + IntToString(a.workerIndex)
  }

  /** The argument array the worker is meant to receive: the JVM, its two
      options, the main class, then the worker class and the four numbers. */
  function Argv(a: WorkerArgs): seq<string> {
    ["java", "-Dname=parspice_worker_" + IntToString(a.workerIndex), "-cp", a.workerJar,
     a.mainClass, a.workerClass, IntToString(a.port), IntToString(a.startIndex),
     IntToString(a.count), IntToString(a.workerIndex)]
  }

  /** Every position of the argument array reads back the field it carries:
      the strings verbatim, the numbers through a decimal parse. */
  lemma ArgvFields(a: WorkerArgs)
    ensures |Argv(a)| == 10
    ensures Argv(a)[3] == a.workerJar && Argv(a)[4] == a.mainClass && Argv(a)[5] == a.workerClass
    ensures ParseInt(Argv(a)[6]) == Some(a.port)
    ensures ParseInt(Argv(a)[7]) == Some(a.startIndex)
    ensures ParseInt(Argv(a)[8]) == Some(a.count)
    ensures ParseInt(Argv(a)[9]) == Some(a.workerIndex)
  {
    var v := Argv(a);
    assert v[6] == IntToString(a.port) && v[7] == IntToString(a.startIndex);
    assert v[8] == IntToString(a.count) && v[9] == IntToString(a.workerIndex);
    IntToStringParses(a.port);
    IntToStringParses(a.startIndex);
    IntToStringParses(a.count);
    IntToStringParses(a.workerIndex);
  }

  lemma IntToStringIsWord(x: int)
    ensures IsWord(IntToString(x))
  {
  }

  /** Joining one more word appends a space and the word. */
  lemma {:induction false} JoinSnoc(ws: seq<string>, w: string)
    requires |ws| > 0
    ensures JoinWords(ws + [w]) == JoinWords(ws) + " " + w
  {
    if |ws| > 1 {
      assert (ws + [w])[1..] == ws[1..] + [w];
      JoinSnoc(ws[1..], w);
    }
  }

  /** Ten words joined by spaces, left to right as Java concatenates. */
  lemma JoinTen(v: seq<string>)
    requires |v| == 10
    ensures JoinWords(v) == v[0] + " " + v[1] + " " + v[2] + " " + v[3] + " " + v[4] + " " +
                            v[5] + " " + v[6] + " " + v[7] + " " + v[8] + " " + v[9]
  {
    var k := 1;
    assert JoinWords(v[..1]) == v[0];
    while k < 10
      invariant 1 <= k <= 10
      invariant JoinWords(v[..k]) == JoinLeft(v, k)
    {
      JoinSnoc(v[..k], v[k]);
      assert v[..k + 1] == v[..k] + [v[k]];
      k := k + 1;
    }
    assert v[..10] == v;
    assert JoinLeft(v, 2) == v[0] + " " + v[1];
    assert JoinLeft(v, 3) == JoinLeft(v, 2) + " " + v[2];
    assert JoinLeft(v, 4) == JoinLeft(v, 3) + " " + v[3];
    assert JoinLeft(v, 5) == JoinLeft(v, 4) + " " + v[4];
    assert JoinLeft(v, 6) == JoinLeft(v, 5) + " " + v[5];
    assert JoinLeft(v, 7) == JoinLeft(v, 6) + " " + v[6];
    assert JoinLeft(v, 8) == JoinLeft(v, 7) + " " + v[7];
    assert JoinLeft(v, 9) == JoinLeft(v, 8) + " " + v[8];
  }

  /** The command line is the argument array joined by spaces. */
  lemma CommandLineJoinsArgv(a: WorkerArgs)
    ensures CommandLine(a) == JoinWords(Argv(a))
  {
    JoinTen(Argv(a));
  }

  /** When the jar path and class names hold no whitespace, the split
      command is exactly the intended argument array. */
  lemma CommandLineTokens(a: WorkerArgs)
    requires IsWord(a.workerJar) && IsWord(a.mainClass) && IsWord(a.workerClass)
    ensures Tokenize(CommandLine(a)) == Argv(a)
  {
    CommandLineJoinsArgv(a);
    IntToStringIsWord(a.workerIndex);
    IntToStringIsWord(a.port);
    IntToStringIsWord(a.startIndex);
    IntToStringIsWord(a.count);
    var v := Argv(a);
    assert IsWord(v[1]) by {
      assert v[1] == "-Dname=parspice_worker_" + IntToString(a.workerIndex);
    }
    TokenizeJoin(v);
  }

  /** Splitting one word at a space into two words leaves the joined
      string unchanged. */
  lemma {:induction false} JoinSplit(ws: seq<string>, k: nat, u: string, w: string)
    requires k < |ws| && ws[k] == u + " " + w
    ensures JoinWords(ws) == JoinWords(ws[..k] + [u, w] + ws[k + 1..])
  {
    var split := ws[..k] + [u, w] + ws[k + 1..];
    if k == 0 {
      assert split == [u] + ([w] + ws[1..]);
      assert split[1..] == [w] + ws[1..];
      if |ws| > 1 {
        assert ([w] + ws[1..])[1..] == ws[1..];
      }
    } else {
      JoinSplit(ws[1..], k - 1, u, w);
      assert split[1..] == ws[1..][..k - 1] + [u, w] + ws[1..][k..];
    }
  }

  /** A jar path with a space in it, such as "my jobs/w.jar", passes
      `checkJar` but splits into two arguments: the JVM takes the part
      before the space as the class path and the part after it as the main
      class, and every later argument shifts by one. */
  lemma SpaceInJarPathShiftsArguments(a: WorkerArgs, dir: string, file: string)
    requires a.workerJar == dir + " " + file
    requires IsWord(dir) && IsWord(file) && EndsWith(file, ".jar")
    requires IsWord(a.mainClass) && IsWord(a.workerClass)
    ensures CheckJar(a.workerJar, true).Pass?
    ensures |Tokenize(CommandLine(a))| == 11
    ensures Tokenize(CommandLine(a))[3] == dir
    ensures Tokenize(CommandLine(a))[4] == file
    ensures Tokenize(CommandLine(a))[5] == a.mainClass
    ensures Tokenize(CommandLine(a)) != Argv(a)
  {
    var argv := Argv(a);
    assert a.workerJar[|a.workerJar| - 4..] == file[|file| - 4..];
    CommandLineJoinsArgv(a);
    JoinSplit(argv, 3, dir, file);
    var v := argv[..3] + [dir, file] + argv[4..];
    IntToStringIsWord(a.workerIndex);
    IntToStringIsWord(a.port);
    IntToStringIsWord(a.startIndex);
    IntToStringIsWord(a.count);
    assert IsWord(argv[1]) by {
      assert argv[1] == "-Dname=parspice_worker_" + IntToString(a.workerIndex);
    }
    assert forall i :: 0 <= i < |argv| && i != 3 ==> IsWord(argv[i]);
    assert forall i :: 0 <= i < |v| ==> IsWord(v[i]) by {
      forall i | 0 <= i < |v|
        ensures IsWord(v[i])
      {
        if i < 3 {
          assert v[i] == argv[i];
        } else if i > 4 {
          assert v[i] == argv[i - 1];
        }
      }
    }
    TokenizeJoin(v);
  }

  /** The fields a worker started from the launch string receives. The JVM
      takes the class path and main class from tokens 3 and 4; the worker's
      `main` reads its class, port, first index, share and index from the
      five tokens after them. Any other token count, or a number that does
      not parse, leaves the worker without a run. */
  function LaunchedArgs(tokens: seq<string>): (r: Option<WorkerArgs>)
    ensures r.Some? ==> |tokens| == 10
  {
    if |tokens| == 10 && ParseInt(tokens[6]).Some? && ParseInt(tokens[7]).Some?
       && ParseInt(tokens[8]).Some? && ParseInt(tokens[9]).Some? then
      Some(WorkerArgs(tokens[3], tokens[4], tokens[5], ParseInt(tokens[6]).value,
                      ParseInt(tokens[7]).value, ParseInt(tokens[8]).value, ParseInt(tokens[9]).value))
    else None
  }

  /** With a whitespace-free jar path and class names, the worker launched
      from the command string receives exactly the fields it was planned
      with. */
  lemma LaunchedArgsOfCommandLine(a: WorkerArgs)
    requires IsWord(a.workerJar) && IsWord(a.mainClass) && IsWord(a.workerClass)
    ensures LaunchedArgs(Tokenize(CommandLine(a))) == Some(a)
  {
    CommandLineTokens(a);
    ArgvFields(a);
  }

  /** Passing the argument array itself, as `Runtime.exec(String[])` does,
      delivers every worker its planned fields, whatever characters the
      jar path and class names hold. */
  lemma LaunchedArgsOfArgv(a: WorkerArgs)
    ensures LaunchedArgs(Argv(a)) == Some(a)
  {
    ArgvFields(a);
  }

  /** A jar path with one space splits the launch into eleven tokens, and
      the worker never runs. */
  lemma SpaceInJarPathNotLaunched(a: WorkerArgs, dir: string, file: string)
    requires a.workerJar == dir + " " + file
    requires IsWord(dir) && IsWord(file) && EndsWith(file, ".jar")
    requires IsWord(a.mainClass) && IsWord(a.workerClass)
    ensures LaunchedArgs(Tokenize(CommandLine(a))) == None
  {
    SpaceInJarPathShiftsArguments(a, dir, file);
  }
}
