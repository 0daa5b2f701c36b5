/**
 * Removing harmless prefixes from the words of a command before it is matched: assignments of
 * known environment variables, and wrappers such as timeout and nohup.
 */
module ShellStrip {
  const SAFE_VARS: set<string> :=
    {"LANG", "LC_ALL", "TERM", "TZ", "HOME", "USER", "PWD", "SHELL", "PYTHONUTF8", "PYTHONIOENCODING"}
  const WRAPPERS: set<string> := {"timeout", "nohup", "nice", "stdbuf", "ionice"}

  predicate NameStart(c: char) { 'a' <= c <= 'z' || 'A' <= c <= 'Z' || c == '_' }
  predicate NamePart(c: char) { NameStart(c) || '0' <= c <= '9' }

  /** Length of the variable name of an assignment NAME=value; 0 when the word is not one. */
  function NameLength(word: string): (n: nat)
    ensures n < |word| || n == 0
    ensures n > 0 ==> NameStart(word[0]) && word[n] == '=' && forall i :: 0 <= i < n ==> NamePart(word[i])
  {
    var n := Equals(word, 0);
    if 0 < n < |word| && NameStart(word[0]) && forall i :: 0 <= i < n ==> NamePart(word[i]) then n else 0
  }

  /** Position of the first equals sign from i on. */
  function Equals(word: string, i: nat): (n: nat)
    requires i <= |word|
    ensures i <= n <= |word| && (n < |word| ==> word[n] == '=')
    ensures forall j :: i <= j < n ==> word[j] != '='
    decreases |word| - i
  {
    if i == |word| || word[i] == '=' then i else Equals(word, i + 1)
  }

  predicate Assigns(word: string) { NameLength(word) > 0 }

  function Name(word: string): string
    requires Assigns(word)
  {
    word[..NameLength(word)]
  }

  /** Variables that decide which program runs or how it loads code. */
  predicate Hijacks(name: string) { "LD_" <= name || "DYLD_" <= name || name == "PATH" }

  predicate SafeAssignment(word: string) {
    Assigns(word) && !Hijacks(Name(word)) && Name(word) in SAFE_VARS
  }

  lemma SafeNamesAreNames(name: string)
    requires name in SAFE_VARS
    ensures name != [] && NameStart(name[0]) && !Hijacks(name)
    ensures forall i :: 0 <= i < |name| ==> NamePart(name[i]) && name[i] != '='
  {
    assert |name| >= 2 && name[0] != 'D' && !(name[0] == 'L' && name[1] == 'D');
    assert "LD_"[0] == 'L' && "LD_"[1] == 'D' && "DYLD_"[0] == 'D';
  }

  lemma {:induction false} EqualsAt(word: string, i: nat, n: nat)
    requires i <= n < |word| && word[n] == '=' && forall j :: i <= j < n ==> word[j] != '='
    ensures Equals(word, i) == n
    decreases n - i
  {
    if i < n { EqualsAt(word, i + 1, n); }
  }

  /** An assignment is safe if and only if it opens with one of the known names and an equals sign. */
  lemma SafeAssignmentIff(word: string)
    ensures SafeAssignment(word) <==> exists name :: name in SAFE_VARS && name + "=" <= word
  {
    if SafeAssignment(word) { assert Name(word) + "=" <= word; }
    if name :| name in SAFE_VARS && name + "=" <= word {
      SafeNamesAreNames(name);
      assert forall i :: 0 <= i <= |name| ==> word[i] == (name + "=")[i];
      EqualsAt(word, 0, |name|);
      assert word[..|name|] == name;
    }
  }

  // ---- assignments ----

  function StripEnv(words: seq<string>): seq<string> {
    if words != [] && SafeAssignment(words[0]) then StripEnv(words[1..]) else words
  }

  method StripLeadingEnv(words: seq<string>) returns (rest: seq<string>)
    ensures rest == StripEnv(words)
  {
    rest := words;
    while rest != [] && Assigns(rest[0])
      invariant StripEnv(rest) == StripEnv(words)
      decreases |rest|
    {
      var name := Name(rest[0]);
      if Hijacks(name) || name !in SAFE_VARS { break; }
      rest := rest[1..];
    }
  }

  // ---- wrappers ----

  /** The test for a plain number or duration. */
  datatype Words = Words(numeric: string -> bool)

  predicate IsFlag(word: string) { word != [] && word[0] == '-' }

  /** Number of words that one round of stripping takes away. */
  function Taken(words: seq<string>, w: Words): (n: nat)
    ensures n <= |words|
  {
    if words == [] then 0
    else if words[0] == "nohup" then 1
    else if words[0] == "env" then
      var rest := StripEnv(words[1..]);
      StripEnvIsSuffix(words[1..]);
      if rest != words[1..] then |words| - |rest|
      else if |words| > 1 && !IsFlag(words[1]) then 1 else 0
    else if words[0] in WRAPPERS && |words| >= 2 then
      if IsFlag(words[1]) then 0 else if w.numeric(words[1]) then 2 else 1
    else 0
  }

  function StripWrappers(words: seq<string>, w: Words): seq<string>
    decreases |words|
  {
    if Taken(words, w) == 0 then words else StripWrappers(words[Taken(words, w)..], w)
  }

  lemma {:induction false} StripEnvIsSuffix(words: seq<string>)
    ensures var rest := StripEnv(words);
            && |rest| <= |words| && rest == words[|words| - |rest|..]
            && (forall i :: 0 <= i < |words| - |rest| ==> SafeAssignment(words[i]))
            && (rest != [] ==> !SafeAssignment(rest[0]))
  {
    if words != [] && SafeAssignment(words[0]) {
      StripEnvIsSuffix(words[1..]);
      var rest := StripEnv(words);
      forall i | 0 <= i < |words| - |rest| ensures SafeAssignment(words[i]) {
        if i > 0 { assert words[1..][i - 1] == words[i]; }
      }
    }
  }

  /** The body of the stripping loop: how many words it takes away. */
  method Peel(words: seq<string>, w: Words) returns (n: nat)
    requires words != []
    ensures n == Taken(words, w)
  {
    var head := words[0];
    if head == "nohup" { return 1; }
    if head == "env" {
      var stripped := StripLeadingEnv(words[1..]);
      StripEnvIsSuffix(words[1..]);
      if stripped != words[1..] { return |words| - |stripped|; }
      if |words| > 1 && !IsFlag(words[1]) { return 1; }
      return 0;
    }
    if head in WRAPPERS && |words| >= 2 {
      if IsFlag(words[1]) { return 0; }
      if w.numeric(words[1]) { return 2; }
      return 1;
    }
    return 0;
  }

  method StripSafeWrappers(words: seq<string>, w: Words) returns (rest: seq<string>)
    ensures rest == StripWrappers(words, w)
  {
    rest := words;
    var changed := true;
    ghost var goal := StripWrappers(words, w);
    while changed && rest != []
      invariant StripWrappers(rest, w) == goal
      invariant !changed ==> Taken(rest, w) == 0
      decreases |rest|, changed
    {
      var n := Peel(rest, w);
      changed := n > 0;
      rest := rest[n..];
    }
  }

  // ---- what may be removed ----

  /** The words that stripping is allowed to remove. */
  predicate Removable(word: string, w: Words) {
    word == "env" || word in WRAPPERS || SafeAssignment(word) || w.numeric(word)
  }

  /** A number starts with a digit. */
  ghost predicate NumbersAreNotNames(w: Words) {
    forall word :: w.numeric(word) ==> word != [] && !NameStart(word[0])
  }

  lemma TakenAreRemovable(words: seq<string>, w: Words, i: nat)
    requires i < Taken(words, w)
    ensures Removable(words[i], w)
  {
    StripEnvIsSuffix(words[1..]);
    if i > 0 { assert words[i] == words[1..][i - 1]; }
  }

  /** Stripping removes a prefix of removable words, and has nothing left to strip. */
  lemma {:induction false} StripWrappersIsSuffix(words: seq<string>, w: Words)
    ensures var rest := StripWrappers(words, w);
            && |rest| <= |words| && rest == words[|words| - |rest|..]
            && (forall i :: 0 <= i < |words| - |rest| ==> Removable(words[i], w))
            && Taken(rest, w) == 0
    decreases |words|
  {
    var n := Taken(words, w);
    if n > 0 {
      StripWrappersIsSuffix(words[n..], w);
      var rest := StripWrappers(words, w);
      forall i | 0 <= i < |words| - |rest| ensures Removable(words[i], w) {
        if i < n { TakenAreRemovable(words, w, i); } else { assert words[n..][i - n] == words[i]; }
      }
    }
  }

  lemma StripWrappersFixed(words: seq<string>, w: Words)
    ensures StripWrappers(StripWrappers(words, w), w) == StripWrappers(words, w)
    ensures StripEnv(StripEnv(words)) == StripEnv(words)
  {
    StripWrappersIsSuffix(words, w);
    StripEnvIsSuffix(words);
  }

  /** Both strippings, in the order used before matching. */
  function Normal(words: seq<string>, w: Words): seq<string> { StripWrappers(StripEnv(words), w) }

  /** rest is what remains of words when a prefix of removable words is taken away. */
  ghost predicate Stripped(words: seq<string>, rest: seq<string>, w: Words) {
    && |rest| <= |words| && rest == words[|words| - |rest|..]
    && forall i :: 0 <= i < |words| - |rest| ==> Removable(words[i], w)
  }

  lemma StrippedTwice(words: seq<string>, mid: seq<string>, rest: seq<string>, w: Words)
    requires Stripped(words, mid, w) && Stripped(mid, rest, w)
    ensures Stripped(words, rest, w)
  {
    var k := |words| - |mid|;
    forall i | 0 <= i < |words| - |rest| ensures Removable(words[i], w) {
      if k <= i { assert mid[i - k] == words[i]; }
    }
  }

  lemma NormalIsStripped(words: seq<string>, w: Words)
    ensures Stripped(words, Normal(words, w), w)
  {
    var mid := StripEnv(words);
    StripEnvIsSuffix(words);
    StripWrappersIsSuffix(mid, w);
    StrippedTwice(words, mid, Normal(words, w), w);
  }

  lemma WrappersAreNotAssignments(word: string)
    requires word == "env" || word in WRAPPERS
    ensures !Assigns(word)
  {
    assert '=' !in word;
  }

  /** An assignment of any variable that is not known to be safe, such as PATH or LD_PRELOAD, is
      never removed, and neither is any word after it. */
  lemma UnsafeAssignmentStays(words: seq<string>, w: Words, i: nat)
    requires NumbersAreNotNames(w) && i < |words| && Assigns(words[i])
    requires Hijacks(Name(words[i])) || Name(words[i]) !in SAFE_VARS
    ensures var rest := Normal(words, w);
            |rest| >= |words| - i && rest[|rest| - (|words| - i)..] == words[i..]
  {
    NormalIsStripped(words, w);
    var rest := Normal(words, w);
    var k := |words| - |rest|;
    if i < k {
      assert Removable(words[i], w);
      if words[i] == "env" || words[i] in WRAPPERS { WrappersAreNotAssignments(words[i]); }
      assert false;
    }
    assert words[k..][i - k..] == words[i..];
  }

  /** A wrapper and its number are removed. */
  lemma WrapperStripped(wrapper: string, number: string, plain: seq<string>, w: Words)
    requires wrapper in WRAPPERS && wrapper != "nohup" && w.numeric(number) && !IsFlag(number)
    ensures Normal([wrapper, number] + plain, w) == StripWrappers(plain, w)
  {
    var words := [wrapper, number] + plain;
    WrappersAreNotAssignments(wrapper);
    assert StripEnv(words) == words;
    assert words[0] == wrapper && words[1] == number && words[2..] == plain;
    assert wrapper != "env";
    assert Taken(words, w) == 2;
  }

  /** A wrapper in front of a word that is neither a number nor a flag is removed alone. */
  lemma BareWrapperStripped(wrapper: string, plain: seq<string>, w: Words)
    requires wrapper in WRAPPERS && wrapper != "nohup"
    requires plain != [] && !w.numeric(plain[0]) && !IsFlag(plain[0])
    ensures Normal([wrapper] + plain, w) == StripWrappers(plain, w)
  {
    var words := [wrapper] + plain;
    WrappersAreNotAssignments(wrapper);
    assert words[0] == wrapper && words[1] == plain[0] && words[1..] == plain && wrapper != "env";
    assert StripEnv(words) == words && Taken(words, w) == 1;
  }

  /** A wrapper or `env` in front of a flag stays. */
  lemma FlagStops(wrapper: string, flag: string, plain: seq<string>, w: Words)
    requires (wrapper in WRAPPERS && wrapper != "nohup") || wrapper == "env"
    requires IsFlag(flag)
    ensures Normal([wrapper, flag] + plain, w) == [wrapper, flag] + plain
  {
    var words := [wrapper, flag] + plain;
    WrappersAreNotAssignments(wrapper);
    assert words[0] == wrapper && words[1] == flag && words[1..][0] == flag;
    assert StripEnv(words) == words;
    if SafeAssignment(flag) { SafeIsNotFlag(flag); }
    assert Taken(words, w) == 0;
  }

  /** `nohup` is removed, and so are `env` and the safe assignments after it. */
  lemma NohupStripped(plain: seq<string>, w: Words)
    ensures Normal(["nohup"] + plain, w) == StripWrappers(plain, w)
  {
    var words := ["nohup"] + plain;
    WrappersAreNotAssignments("nohup");
    assert StripEnv(words) == words && words[1..] == plain;
    assert Taken(words, w) == 1;
  }

  /** `env` in front of a command is removed. */
  lemma BareEnvStripped(plain: seq<string>, w: Words)
    requires plain != [] && !IsFlag(plain[0])
    ensures Normal(["env"] + plain, w) == Normal(plain, w)
  {
    var words := ["env"] + plain;
    WrappersAreNotAssignments("env");
    assert words[0] == "env" && words[1] == plain[0] && words[1..] == plain && StripEnv(words) == words;
    EnvTaken(words, w);
  }

  lemma AssignmentStripped(word: string, plain: seq<string>, w: Words)
    requires SafeAssignment(word)
    ensures Normal([word] + plain, w) == Normal(plain, w)
  {
    var words := [word] + plain;
    assert words[0] == word && words[1..] == plain;
  }

  lemma EnvStripped(word: string, plain: seq<string>, w: Words)
    requires SafeAssignment(word)
    ensures Normal(["env", word] + plain, w) == Normal(plain, w)
  {
    var words := ["env", word] + plain;
    WrappersAreNotAssignments("env");
    SafeIsNotFlag(word);
    assert words[0] == "env" && words[1] == word && words[1..] == [word] + plain && ([word] + plain)[1..] == plain;
    assert StripEnv(words) == words;
    EnvTaken(words, w);
    assert StripEnv([word] + plain) == StripEnv(plain);
  }

  // ----- Normalising twice

  /** Reading the words from the left, a safe assignment comes where assignments are not removed:
      after a wrapper or its number.  They are removed (`free`) at the start, after `env`, and after
      one another. */
  predicate Exposed(words: seq<string>, w: Words, free: bool)
    decreases |words|
  {
    if words == [] then false
    else if SafeAssignment(words[0]) then !free || Exposed(words[1..], w, true)
    else if words[0] == "nohup" then Exposed(words[1..], w, false)
    else if words[0] == "env" then |words| > 1 && !IsFlag(words[1]) && Exposed(words[1..], w, true)
    else if words[0] in WRAPPERS && |words| >= 2 && !IsFlag(words[1]) then
      Exposed(words[if w.numeric(words[1]) then 2 else 1..], w, false)
    else false
  }

  lemma SafeIsNotFlag(word: string)
    requires SafeAssignment(word)
    ensures !IsFlag(word) && word != "env" && word !in WRAPPERS
  {
    if word == "env" || word in WRAPPERS { WrappersAreNotAssignments(word); }
  }

  lemma {:induction false} ExposedAfterEnv(words: seq<string>, w: Words)
    ensures Exposed(words, w, true) <==> Exposed(StripEnv(words), w, false)
  {
    if words != [] && SafeAssignment(words[0]) { ExposedAfterEnv(words[1..], w); }
  }

  lemma EnvTaken(words: seq<string>, w: Words)
    requires words != [] && words[0] == "env" && |words| > 1 && !IsFlag(words[1])
    ensures Taken(words, w) > 0 && words[Taken(words, w)..] == StripEnv(words[1..])
  {
    StripEnvIsSuffix(words[1..]);
    var rest := StripEnv(words[1..]);
    assert words[|words| - |rest|..] == words[1..][|words| - 1 - |rest|..];
  }

  lemma EnvStops(words: seq<string>, w: Words)
    requires words != [] && words[0] == "env" && (|words| == 1 || IsFlag(words[1]))
    ensures Taken(words, w) == 0
  {
    if |words| > 1 && SafeAssignment(words[1]) { SafeIsNotFlag(words[1]); }
  }

  /** What the wrappers leave starts with a safe assignment exactly when the scan finds one. */
  lemma {:induction false} ExposedByWrappers(words: seq<string>, w: Words)
    ensures var rest := StripWrappers(words, w);
            Exposed(words, w, false) <==> rest != [] && SafeAssignment(rest[0])
    decreases |words|
  {
    if words != [] {
      var n := Taken(words, w);
      if SafeAssignment(words[0]) {
        SafeIsNotFlag(words[0]);
      } else if words[0] == "env" {
        if |words| > 1 && !IsFlag(words[1]) {
          EnvTaken(words, w);
          ExposedAfterEnv(words[1..], w);
          ExposedByWrappers(words[n..], w);
        } else {
          EnvStops(words, w);
        }
      } else if n > 0 {
        ExposedByWrappers(words[n..], w);
      }
    }
  }

  /** Normalising a second time strips more if and only if, among the words it would remove, a safe
      assignment follows a wrapper or its number. */
  lemma NormalTwiceIff(words: seq<string>, w: Words)
    ensures Normal(Normal(words, w), w) == Normal(words, w) <==> !Exposed(words, w, true)
  {
    var rest := Normal(words, w);
    ExposedAfterEnv(words, w);
    ExposedByWrappers(StripEnv(words), w);
    StripWrappersFixed(StripEnv(words), w);
    if rest != [] && SafeAssignment(rest[0]) {
      StripEnvIsSuffix(rest[1..]);
      StripWrappersIsSuffix(StripEnv(rest), w);
    }
  }

  lemma LangIsSafe()
    ensures SafeAssignment("LANG=C")
  {
    var word := "LANG=C";
    assert word[4] == '=' && Equals(word, 4) == 4;
    assert Equals(word, 3) == 4;
    assert Equals(word, 2) == 4;
    assert Equals(word, 1) == 4;
    assert Equals(word, 0) == 4;
    assert NameLength(word) == 4;
    assert word[..4] == "LANG";
    assert word[0] == 'L' && word[1] == 'A';
  }

  /** An input where it does: the first pass keeps the assignment, the second removes it. */
  lemma NohupLangTwice(w: Words)
    ensures var words := ["nohup", "LANG=C", "ls"];
            Normal(words, w) == ["LANG=C", "ls"] && Normal(Normal(words, w), w) == ["ls"]
  {
    LangIsSafe();
    SafeIsNotFlag("LANG=C");
    NotAnAssignment("nohup");
    NotAnAssignment("ls");
    var words := ["nohup", "LANG=C", "ls"];
    assert words[1..] == ["LANG=C", "ls"] && words[1..][1..] == ["ls"];
    assert StripEnv(words) == words && Taken(words, w) == 1 && Taken(words[1..], w) == 0;
    assert Taken(["ls"], w) == 0;
    assert StripEnv(["LANG=C", "ls"]) == StripEnv(["ls"]) == ["ls"];
  }

  lemma NotAnAssignment(word: string)
    requires '=' !in word
    ensures !Assigns(word)
  {}
}
