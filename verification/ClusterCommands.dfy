/** Which argument of a command is its key (get_key_index of src/cluster.c). */
module ClusterCommands {
  import opened Lists

  function Lower(c: char): char {
    if 'A' <= c <= 'Z' then c - 'A' + 'a' else c
  }

  predicate StartsIgnoringCase(s: string, t: string)
    requires |t| <= |s|
  {
    forall i | 0 <= i < |t| :: Lower(s[i]) == Lower(t[i])
  }

  // strcasestr
  predicate ContainsIgnoringCase(s: string, t: string) {
    exists k | 0 <= k <= |s| - |t| :: StartsIgnoringCase(s[k..], t)
  }

  // Which commands are refused in a cluster, and which have their key in third place.
  const REFUSED := ["INFO", "MULTI", "EXEC", "SLAVEOF", "REPLICAOF", "CONFIG", "SHUTDOWN", "SCRIPT"]
  const SCRIPTED := ["EVAL", "EVALSHA", "EVAL_RO", "EVALSHA_RO"]

  // Words between bars.
  function Barred(words: seq<string>): (text: string)
    ensures text != "" && text[0] == '|'
  {
    if words == [] then "|" else "|" + words[0] + Barred(words[1..])
  }

  const BANNED_COMMANDS := Barred(REFUSED)
  const KEY_INDEX3_COMMANDS := Barred(SCRIPTED)

  function KeyIndex(command: string): int {
    var whole := "|" + command + "|";
    var buffer := if |whole| > 63 then whole[..63] else whole;
    if ContainsIgnoringCase(BANNED_COMMANDS, buffer) then -1
    else if ContainsIgnoringCase(KEY_INDEX3_COMMANDS, buffer) then 3
    else 1
  }

  // ----- What the search finds -----

  predicate SameWord(s: string, t: string) {
    |s| == |t| && forall i | 0 <= i < |s| :: Lower(s[i]) == Lower(t[i])
  }

  // Any case will do.
  lemma CaseExamples()
    ensures SameWord("info", "INFO") && SameWord("eVAl", "EVAL") && !SameWord("GET", "SET")
  {
    assert "GET"[0] == 'G' && "SET"[0] == 'S';
  }

  ghost predicate NoBars(words: seq<string>) {
    forall i | 0 <= i < |words| :: '|' !in words[i]
  }

  // The parts stand in the list, one after the other.
  predicate RunAt(parts: seq<string>, words: seq<string>, i: nat) {
    i + |parts| <= |words| && forall j | 0 <= j < |parts| :: SameWord(parts[j], words[i + j])
  }

  predicate IsRun(parts: seq<string>, words: seq<string>) {
    exists i | 0 <= i <= |words| :: RunAt(parts, words, i)
  }

  // What stands between the bars of a name: for a command without any, its whole name.
  function Parts(command: string): (parts: seq<string>)
    ensures parts != []
  {
    if command == "" then [""]
    else
      var rest := Parts(command[1..]);
      if command[0] == '|' then [""] + rest else [[command[0]] + rest[0]] + rest[1..]
  }

  lemma {:induction false} PartsMean(command: string)
    ensures NoBars(Parts(command)) && Barred(Parts(command)) == "|" + command + "|"
    ensures '|' !in command ==> Parts(command) == [command]
  {
    if command == "" {
      assert Barred([""]) == "|" + "" + "|";
    } else {
      PartsMean(command[1..]);
      var rest := Parts(command[1..]);
      assert command == [command[0]] + command[1..];
      hide Barred;
      if command[0] == '|' {
        assert ([""] + rest)[1..] == rest;
        BarredIs([""] + rest);
        assert "|" + "" == "|" && "|" + command[1..] == command;
        Associate("|", command, "|");
        Associate("|", "|" + command[1..], "|");
      } else {
        LongerFirst(command[0], rest, command[1..]);
        Associate("|", [command[0]], command[1..]);
      }
    }
  }

  lemma LongerFirst(c: char, parts: seq<string>, text: string)
    requires parts != [] && Barred(parts) == "|" + text + "|"
    ensures Barred([[c] + parts[0]] + parts[1..]) == "|" + [c] + text + "|"
  {
    var tail, first := Barred(parts[1..]), [c] + parts[0];
    var longer := [first] + parts[1..];
    assert longer[1..] == parts[1..];
    hide Barred;
    assert Barred(longer) == "|" + first + tail by { BarredIs(longer); }
    assert Barred(parts) == "|" + parts[0] + tail by { BarredIs(parts); }
    Associate("|", parts[0], tail);
    Associate("|", text, "|");
    AfterBar(parts[0] + tail, text + "|");
    Associate([c], parts[0], tail);
    Associate("|", first, tail);
    Associate([c], text, "|");
    Associate("|", [c] + text, "|");
    Associate("|", [c], text);
  }

  lemma BarredIs(words: seq<string>)
    requires words != []
    ensures Barred(words) == "|" + words[0] + Barred(words[1..])
  {
  }

  lemma AfterBar(x: string, y: string)
    requires "|" + x == "|" + y
    ensures x == y
  {
    assert ("|" + x)[1..] == x && ("|" + y)[1..] == y;
  }

  lemma OnlyBarIsBar()
    ensures forall c :: Lower(c) == '|' <==> c == '|'
  {
  }

  // One word after the other.
  lemma FirstWord(p: string, r: string, w: string, s: string)
    requires '|' !in p && '|' !in w && r != "" && r[0] == '|' && s != "" && s[0] == '|'
    ensures var text, buffer := "|" + w + s, "|" + p + r;
      |buffer| <= |text| && StartsIgnoringCase(text, buffer) <==>
        SameWord(p, w) && |r| <= |s| && StartsIgnoringCase(s, r)
  {
    hide Lower;
    var text, buffer := "|" + w + s, "|" + p + r;
    if |p| == |w| {
      StartsAppend("|" + w, s, "|" + p, r);
      SameAfterBar(p, w);
    } else if |buffer| <= |text| && StartsIgnoringCase(text, buffer) {
      SameLength(p, r, w, s);
    }
  }

  lemma SameLength(p: string, r: string, w: string, s: string)
    requires '|' !in p && '|' !in w && r != "" && r[0] == '|' && s != "" && s[0] == '|'
    requires |p| + |r| <= |w| + |s| && StartsIgnoringCase("|" + w + s, "|" + p + r)
    ensures |p| == |w|
  {
    OnlyBarIsBar();
    hide Lower;
    var text, buffer := "|" + w + s, "|" + p + r;
    assert text[|w| + 1] == '|' && buffer[|p| + 1] == '|';
    assert forall i | 0 <= i < |w| :: text[i + 1] == w[i];
    assert forall i | 0 <= i < |p| :: buffer[i + 1] == p[i];
    assert Lower(text[|p| + 1]) == Lower(buffer[|p| + 1]);
    assert |w| + 1 < |buffer| ==> Lower(text[|w| + 1]) == Lower(buffer[|w| + 1]);
  }

  lemma StartsAppend(a: string, b: string, c: string, d: string)
    requires |a| == |c|
    ensures |c + d| <= |a + b| && StartsIgnoringCase(a + b, c + d) <==>
      SameWord(c, a) && |d| <= |b| && StartsIgnoringCase(b, d)
  {
    hide Lower;
    var text, buffer := a + b, c + d;
    if |buffer| <= |text| && StartsIgnoringCase(text, buffer) {
      forall i | 0 <= i < |c| ensures Lower(c[i]) == Lower(a[i]) {
        assert Lower(text[i]) == Lower(buffer[i]);
      }
      forall i | 0 <= i < |d| ensures Lower(b[i]) == Lower(d[i]) {
        assert Lower(text[|a| + i]) == Lower(buffer[|a| + i]);
      }
    }
  }

  lemma SameAfterBar(p: string, w: string)
    ensures SameWord("|" + p, "|" + w) <==> SameWord(p, w)
  {
    hide Lower;
    var a, b := "|" + p, "|" + w;
    if SameWord(a, b) {
      forall i | 0 <= i < |p| ensures Lower(p[i]) == Lower(w[i]) {
        assert Lower(a[i + 1]) == Lower(b[i + 1]);
      }
    }
  }

  lemma {:induction false} StartsWithRun(parts: seq<string>, words: seq<string>)
    requires NoBars(parts) && NoBars(words)
    ensures |Barred(parts)| <= |Barred(words)| && StartsIgnoringCase(Barred(words), Barred(parts))
      <==> RunAt(parts, words, 0)
  {
    hide SameWord;
    if parts != [] && words != [] {
      StartsWithRun(parts[1..], words[1..]);
      hide StartsIgnoringCase;
      FirstWord(parts[0], Barred(parts[1..]), words[0], Barred(words[1..]));
      assert forall j | 0 <= j < |parts| - 1 && j < |words| - 1 ::
        parts[1..][j] == parts[j + 1] && words[1..][j] == words[j + 1];
      if RunAt(parts[1..], words[1..], 0) && SameWord(parts[0], words[0]) {
        forall j | 0 <= j < |parts| ensures SameWord(parts[j], words[0 + j]) {
          assert j > 0 ==> SameWord(parts[1..][j - 1], words[1..][j - 1]);
        }
      }
      if RunAt(parts, words, 0) {
        forall j | 0 <= j < |parts| - 1 ensures SameWord(parts[1..][j], words[1..][0 + j]) {
          assert SameWord(parts[j + 1], words[0 + (j + 1)]);
        }
      }
    }
  }

  // Nothing is found that begins in the middle of a word.
  lemma NotInWord(buffer: string, w: string, rest: string, k: nat)
    requires '|' !in w && 0 < k && buffer != "" && buffer[0] == '|'
    requires k + |buffer| <= |w| + 1 + |rest| && StartsIgnoringCase(("|" + w + rest)[k..], buffer)
    ensures k >= |w| + 1
  {
    OnlyBarIsBar();
    var text := "|" + w + rest;
    assert Lower(text[k..][0]) == Lower(buffer[0]);
    assert forall j | 1 <= j <= |w| :: text[j] == w[j - 1];
  }

  // Text between bars is found among words between bars exactly if its parts are a run of
  // them.
  lemma {:induction false} FoundIfRun(parts: seq<string>, words: seq<string>)
    requires NoBars(parts) && NoBars(words)
    ensures ContainsIgnoringCase(Barred(words), Barred(parts)) <==> IsRun(parts, words)
  {
    StartsWithRun(parts, words);
    var text, buffer := Barred(words), Barred(parts);
    assert text[0..] == text;
    if words == [] {
      hide RunAt, StartsIgnoringCase;
      assert IsRun(parts, words) <==> RunAt(parts, words, 0);
    } else {
      var w, rest := words[0], Barred(words[1..]);
      FoundIfRun(parts, words[1..]);
      hide StartsIgnoringCase, SameWord, Barred;
      assert forall k | 0 <= k <= |rest| :: rest[k..] == text[|w| + 1 + k..];
      if k: nat :| k <= |text| - |buffer| && StartsIgnoringCase(text[k..], buffer) {
        if k > 0 {
          NotInWord(buffer, w, rest, k);
          assert StartsIgnoringCase(rest[k - |w| - 1..], buffer);
        }
      }
      if k: nat :| k <= |rest| - |buffer| && StartsIgnoringCase(rest[k..], buffer) {
        assert StartsIgnoringCase(text[|w| + 1 + k..], buffer);
      }
      RunMore(parts, words);
    }
  }

  lemma RunMore(parts: seq<string>, words: seq<string>)
    requires words != []
    ensures IsRun(parts, words) <==> RunAt(parts, words, 0) || IsRun(parts, words[1..])
  {
    hide SameWord;
    if i :| 0 <= i <= |words| && RunAt(parts, words, i) {
      assert i > 0 ==> RunAt(parts, words[1..], i - 1);
    }
    if i :| 0 <= i <= |words[1..]| && RunAt(parts, words[1..], i) {
      assert RunAt(parts, words, i + 1);
    }
  }

  lemma Found(command: string, words: seq<string>)
    requires NoBars(words)
    ensures ContainsIgnoringCase(Barred(words), "|" + command + "|") <==> IsRun(Parts(command), words)
  {
    PartsMean(command);
    FoundIfRun(Parts(command), words);
  }

  // The search in the lists, with what is cut off of long names, comes to this: the index is
  // that of the list in which the parts of the name are a run.
  lemma KeyIndexMeans(command: string)
    ensures KeyIndex(command) ==
      if IsRun(Parts(command), ["INFO", "MULTI", "EXEC", "SLAVEOF", "REPLICAOF", "CONFIG", "SHUTDOWN", "SCRIPT"])
      then -1
      else if IsRun(Parts(command), ["EVAL", "EVALSHA", "EVAL_RO", "EVALSHA_RO"]) then 3
      else 1
  {
    hide ContainsIgnoringCase, Barred, IsRun, Parts;
    Found(command, REFUSED);
    Found(command, SCRIPTED);
    var whole := "|" + command + "|";
    if |whole| > 63 {
      TooLong(whole[..63]);
      TooLong(whole);
    }
  }

  // For a command without bars it is the list in which it stands: that is what it is for.
  lemma WithoutBars(command: string, words: seq<string>)
    requires '|' !in command
    ensures IsRun(Parts(command), words) <==> exists i | 0 <= i < |words| :: SameWord(command, words[i])
  {
    hide SameWord;
    PartsMean(command);
    if i :| 0 <= i <= |words| && RunAt([command], words, i) {
      assert SameWord([command][0], words[i + 0]);
    }
    if i :| 0 <= i < |words| && SameWord(command, words[i]) {
      assert RunAt([command], words, i);
    }
  }

  // A name with bars is taken for what it is not if it is a run of listed words.
  lemma TwoInOne()
    ensures KeyIndex("info|multi") == -1
  {
    hide KeyIndex, IsRun;
    KeyIndexMeans("info|multi");
    InfoMulti();
  }

  lemma InfoMulti()
    ensures IsRun(Parts("info|multi"), REFUSED)
  {
    hide Parts;
    var parts := ["info", "multi"];
    TwoParts("info", "multi");
    assert "info" + "|" + "multi" == "info|multi";
    assert SameWord(parts[0], REFUSED[0]) && SameWord(parts[1], REFUSED[1]);
    assert RunAt(parts, REFUSED, 0);
  }

  lemma {:induction false} TwoParts(a: string, b: string)
    requires '|' !in a && '|' !in b
    ensures Parts(a + "|" + b) == [a, b]
  {
    var s := a + "|" + b;
    if a == "" {
      assert s[1..] == b;
      PartsMean(b);
    } else {
      assert s[1..] == a[1..] + "|" + b;
      TwoParts(a[1..], b);
      assert [a[0]] + a[1..] == a;
    }
  }

  lemma TooLong(buffer: string)
    requires |buffer| >= 63
    ensures !ContainsIgnoringCase(BANNED_COMMANDS, buffer) && !ContainsIgnoringCase(KEY_INDEX3_COMMANDS, buffer)
  {
  }
}
