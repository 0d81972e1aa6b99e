/** The word dictionary: the selection learn-service runs for a shiritori turn and what the gateway makes of it. */
module Words {

  /** The columns of a `words` row that the game looks at. */
  datatype Word = Word(text: string, firstLetter: string, serial: int)

  predicate Keyed(rows: set<Word>) {
    forall a, b | a in rows && b in rows && a.serial == b.serial :: a == b
  }

  /** serial is the primary key. */
  type Dictionary = rows: set<Word> | Keyed(rows)

  function LowerChar(c: char): char {
    if 'A' <= c <= 'Z' then (c as int + 32) as char else c
  }

  function Lower(s: string): (r: string)
    ensures |r| == |s|
  {
    seq(|s|, i requires 0 <= i < |s| => LowerChar(s[i]))
  }

  /* ---- the letter the next word has to start with ---- */

  predicate Skipped(c: char) {
    c == 'e' || c == 'j' || c == 'q' || c == 's'
  }

  function LastLetter(w: string): (r: string)
    ensures |r| <= 1
  {
    if w == [] then []
    else
      var c := LowerChar(w[|w| - 1]);
      if Skipped(c) then LastLetter(w[..|w| - 1]) else [c]
  }

  /** c is the small letter of x, or x itself when x is no capital. */
  predicate SmallOf(x: char, c: char) {
    if 'A' <= x <= 'Z' then c as int - 'a' as int == x as int - 'A' as int else c == x
  }

  lemma LowerMeaning(s: string)
    ensures |Lower(s)| == |s| && forall i | 0 <= i < |s| :: SmallOf(s[i], Lower(s)[i])
    ensures Lower("ABCDEFGHIJKLMNOPQRSTUVWXYZ") == "abcdefghijklmnopqrstuvwxyz"
  {
  }

  /** The rule: c is the small letter of the last character that is none of e, j, q, s in either case. */
  predicate EndsIn(w: string, c: char) {
    exists i | 0 <= i < |w| ::
      w[i] !in "eEjJqQsS" && SmallOf(w[i], c) && forall k | i < k < |w| :: w[k] in "eEjJqQsS"
  }

  lemma SkippedMeaning(x: char)
    ensures Skipped(LowerChar(x)) <==> x in "eEjJqQsS"
  {
  }

  /** What GetLastLetter is for: the small letter of the last such character, or nothing when there is none. */
  predicate IsLastLetter(w: string, buf: string) {
    if forall i | 0 <= i < |w| :: w[i] in "eEjJqQsS" then buf == "" else |buf| == 1 && EndsIn(w, buf[0])
  }

  lemma EndsInMore(init: string, x: char, c: char)
    requires x in "eEjJqQsS" && EndsIn(init, c)
    ensures EndsIn(init + [x], c)
  {
    var w := init + [x];
    var i :| 0 <= i < |init| && init[i] !in "eEjJqQsS" && SmallOf(init[i], c)
             && forall k | i < k < |init| :: init[k] in "eEjJqQsS";
    assert w[i] == init[i];
    assert forall k | i < k < |w| :: w[k] in "eEjJqQsS";
  }

  lemma {:induction false} LastLetterMeaning(w: string)
    ensures IsLastLetter(w, LastLetter(w))
  {
    if w != [] {
      var n := |w| - 1;
      var init := w[..n];
      assert w == init + [w[n]];
      SkippedMeaning(w[n]);
      if w[n] in "eEjJqQsS" {
        LastLetterMeaning(init);
        if LastLetter(init) != "" {
          EndsInMore(init, w[n], LastLetter(init)[0]);
        }
      } else {
        assert SmallOf(w[n], LastLetter(w)[0]);
      }
    }
  }

  method GetLastLetter(word: string) returns (buf: string)
    ensures buf == LastLetter(word) && IsLastLetter(word, buf)
  {
    LastLetterMeaning(word);
    var w := Lower(word);
    if |w| == 0 {
      return "";
    }
    var i := |w| - 1;
    assert word[..i + 1] == word;
    while i >= 0
      invariant -1 <= i < |w|
      invariant LastLetter(word) == LastLetter(word[..i + 1])
    {
      var c := w[i];
      if !Skipped(c) {
        return w[i..i + 1];
      }
      assert word[..i + 1][..i] == word[..i];
      i := i - 1;
    }
    return "";
  }

  /* ---- the selection: filter, target first, then by serial, at most lim + 1 rows ---- */

  function Rank(w: Word, target: string): int {
    if w.text == target then 0 else 1
  }

  predicate Before(a: Word, b: Word, target: string) {
    Rank(a, target) < Rank(b, target) || (Rank(a, target) == Rank(b, target) && a.serial < b.serial)
  }

  predicate IsFirst(m: Word, rows: set<Word>, target: string) {
    forall w | w in rows :: w == m || Before(m, w, target)
  }

  lemma {:induction false} FirstExists(rows: set<Word>, target: string)
    requires rows != {} && Keyed(rows)
    ensures exists m :: m in rows && IsFirst(m, rows, target)
    decreases |rows|
  {
    var x :| x in rows;
    var rest := rows - {x};
    if rest == {} {
      assert rows == {x};
      assert IsFirst(x, rows, target);
    } else {
      FirstExists(rest, target);
      var m :| m in rest && IsFirst(m, rest, target);
      assert m.serial != x.serial;
      if Before(x, m, target) {
        forall w | w in rows
          ensures w == x || Before(x, w, target)
        {
          assert w == x || w in rest;
        }
        assert IsFirst(x, rows, target);
      } else {
        assert Before(m, x, target);
        assert IsFirst(m, rows, target);
      }
    }
  }

  function First(rows: set<Word>, target: string): (m: Word)
    requires rows != {} && Keyed(rows)
    ensures m in rows && IsFirst(m, rows, target)
  {
    FirstExists(rows, target);
    var m :| m in rows && IsFirst(m, rows, target);
    m
  }

  function Ordered(rows: set<Word>, target: string): (s: seq<Word>)
    requires Keyed(rows)
    decreases |rows|
  {
    if rows == {} then [] else
      var m := First(rows, target);
      [m] + Ordered(rows - {m}, target)
  }

  /** Ordered is the ORDER BY: the same rows, strictly ascending. */
  lemma {:induction false} OrderedIsSorted(rows: set<Word>, target: string)
    requires Keyed(rows)
    ensures var s := Ordered(rows, target);
            && |s| == |rows|
            && (forall w :: w in rows <==> w in s)
            && forall i, j | 0 <= i < j < |s| :: Before(s[i], s[j], target)
    decreases |rows|
  {
    if rows != {} {
      var m := First(rows, target);
      OrderedIsSorted(rows - {m}, target);
      var rest := Ordered(rows - {m}, target);
      assert forall j | 0 <= j < |rest| :: rest[j] in rest && Before(m, rest[j], target);
    }
  }

  function Matching(d: Dictionary, userWord: string, letter: string, offset: int): (rows: Dictionary) {
    set w | w in d && ((w.firstLetter == letter && w.serial > offset) || w.text == userWord)
  }

  function SelectWithTarget(d: Dictionary, userWord: string, letter: string, offset: int, limit: int, getLimit: nat)
    : seq<Word>
  {
    var lim := if limit <= 0 then getLimit else limit;
    var rows := Ordered(Matching(d, userWord, letter, offset), userWord);
    if |rows| <= lim + 1 then rows else rows[..lim + 1]
  }

  datatype TargetRes = TargetRes(data: seq<Word>, found: bool)

  /** The learn-service handler; the gateway never sends a limit, so the configured one applies. */
  function RpcGetWordsWithTarget(d: Dictionary, userWord: string, letter: string, offset: int, getLimit: nat)
    : (res: TargetRes)
    ensures res.found ==> |res.data| > 0
  {
    var rows := SelectWithTarget(d, userWord, letter, offset, 0, getLimit);
    if |rows| == 0 then TargetRes([], false) else TargetRes(rows, rows[0].text == userWord)
  }

  /** The gateway's side: an unknown word leaves the pooled buffer as it was, a known one is dropped from the head. */
  method GetWordsWithTarget(d: Dictionary, getLimit: nat, userWord: string, letter: string, offset: int, buf: seq<Word>)
    returns (found: bool, words: seq<Word>)
    ensures var res := RpcGetWordsWithTarget(d, userWord, letter, offset, getLimit);
            found == res.found && words == if found then res.data[1..] else buf
  {
    var res := RpcGetWordsWithTarget(d, userWord, letter, offset, getLimit);
    if !res.found {
      return res.found, buf;
    }
    words := res.data;
    words := words[1..];
    found := res.found;
  }

  /* ---- what the selection amounts to ---- */

  function Holders(d: Dictionary, text: string): Dictionary {
    set w | w in d && w.text == text
  }

  /** The rows a bot may answer with: right letter, past the cursor, a different word. */
  function Candidates(d: Dictionary, userWord: string, letter: string, offset: int): Dictionary {
    set w | w in d && w.firstLetter == letter && w.serial > offset && w.text != userWord
  }

  predicate SmallestSerial(w: Word, rows: set<Word>) {
    w in rows && forall x | x in rows :: w.serial <= x.serial
  }

  lemma OrderedHead(rows: set<Word>, target: string)
    requires Keyed(rows)
    ensures rows != {} ==> |Ordered(rows, target)| > 0 && Ordered(rows, target)[0] == First(rows, target)
    ensures rows != {} && rows != {First(rows, target)} ==>
              |Ordered(rows, target)| > 1
              && Ordered(rows, target)[1] == First(rows - {First(rows, target)}, target)
    ensures rows != {} && rows == {First(rows, target)} ==> |Ordered(rows, target)| == 1
    ensures rows == {} ==> Ordered(rows, target) == []
  {
    if rows != {} {
      var rest := rows - {First(rows, target)};
      assert rest == {} <==> rows == {First(rows, target)};
    }
  }

  /** found says exactly whether the user's word is in the dictionary, whatever the limit. */
  lemma FoundMeansKnown(d: Dictionary, userWord: string, letter: string, offset: int, getLimit: nat)
    ensures RpcGetWordsWithTarget(d, userWord, letter, offset, getLimit).found <==> Holders(d, userWord) != {}
  {
    var rows := Matching(d, userWord, letter, offset);
    OrderedHead(rows, userWord);
    if Holders(d, userWord) != {} {
      var h :| h in Holders(d, userWord);
      assert h in rows;
      assert Rank(First(rows, userWord), userWord) == 0;
    } else if rows != {} {
      assert First(rows, userWord) !in Holders(d, userWord);
    }
  }

  /** Filter, sort, limit and dropping the head pick the smallest-serial candidate, if one row holds the word. */
  lemma BotReply(d: Dictionary, userWord: string, letter: string, offset: int, getLimit: nat)
    requires |Holders(d, userWord)| == 1
    ensures RpcGetWordsWithTarget(d, userWord, letter, offset, getLimit).found
    ensures var words := RpcGetWordsWithTarget(d, userWord, letter, offset, getLimit).data[1..];
            var fit := Candidates(d, userWord, letter, offset);
            && (words == [] <==> getLimit == 0 || fit == {})
            && (words != [] ==> SmallestSerial(words[0], fit))
  {
    FoundMeansKnown(d, userWord, letter, offset, getLimit);
    var h :| h in Holders(d, userWord);
    HoldersSingleton(d, userWord, h);
    HolderFirst(d, userWord, letter, offset, h);
    OrderedHead(Matching(d, userWord, letter, offset), userWord);
  }

  /** The rows after the head are the smallest min(limit, |fit|) candidates, in order. */
  ghost predicate SmallestFew(words: seq<Word>, fit: set<Word>, limit: nat) {
    && |words| == (if limit < |fit| then limit else |fit|)
    && (forall w | w in words :: w in fit)
    && (forall i, j | 0 <= i < j < |words| :: words[i].serial < words[j].serial)
    && (forall w, x | w in words && x in fit && x !in words :: w.serial < x.serial)
  }

  lemma OrderedBySerial(fit: Dictionary, target: string)
    requires forall w | w in fit :: w.text != target
    ensures var s := Ordered(fit, target);
            |s| == |fit| && (forall w :: w in fit <==> w in s)
            && forall i, j | 0 <= i < j < |s| :: s[i].serial < s[j].serial
  {
    OrderedIsSorted(fit, target);
    var s := Ordered(fit, target);
    forall i, j | 0 <= i < j < |s|
      ensures s[i].serial < s[j].serial
    {
      assert s[i] in s && s[j] in s && Before(s[i], s[j], target);
    }
  }

  lemma PrefixIsSmallest(s: seq<Word>, fit: set<Word>, limit: nat)
    requires |s| == |fit| && forall w :: w in fit <==> w in s
    requires forall i, j | 0 <= i < j < |s| :: s[i].serial < s[j].serial
    ensures SmallestFew(if |s| <= limit then s else s[..limit], fit, limit)
  {
    var few := if |s| <= limit then s else s[..limit];
    forall w, x | w in few && x in fit && x !in few
      ensures w.serial < x.serial
    {
      var i :| 0 <= i < |few| && few[i] == w;
      var j :| 0 <= j < |s| && s[j] == x;
      assert j >= |few|;
    }
  }

  lemma HolderFirst(d: Dictionary, userWord: string, letter: string, offset: int, h: Word)
    requires Holders(d, userWord) == {h}
    ensures var rows, fit := Matching(d, userWord, letter, offset), Candidates(d, userWord, letter, offset);
            h in rows && First(rows, userWord) == h && rows - {h} == fit
  {
    var rows, fit := Matching(d, userWord, letter, offset), Candidates(d, userWord, letter, offset);
    forall w | w in d
      ensures w.text == userWord <==> w == h
    {
      assert w.text == userWord <==> w in Holders(d, userWord);
    }
    assert h in Holders(d, userWord);
    assert h in rows && IsFirst(h, rows, userWord);
    assert rows - {h} == fit;
  }

  lemma AnswerData(d: Dictionary, userWord: string, letter: string, offset: int, getLimit: nat, h: Word)
    requires Holders(d, userWord) == {h}
    ensures var rows := [h] + Ordered(Candidates(d, userWord, letter, offset), userWord);
            RpcGetWordsWithTarget(d, userWord, letter, offset, getLimit).data
            == if |rows| <= getLimit + 1 then rows else rows[..getLimit + 1]
  {
    HolderFirst(d, userWord, letter, offset, h);
    assert Ordered(Matching(d, userWord, letter, offset), userWord)
           == [h] + Ordered(Candidates(d, userWord, letter, offset), userWord);
  }

  lemma HeadAndFew(h: Word, s: seq<Word>, limit: nat)
    ensures var rows := [h] + s;
            var data := if |rows| <= limit + 1 then rows else rows[..limit + 1];
            |data| > 0 && data[0] == h && data[1..] == if |s| <= limit then s else s[..limit]
  {
  }

  /** The whole answer about a known word: its row, and the smallest candidates up to the limit. */
  lemma AnswerRows(d: Dictionary, userWord: string, letter: string, offset: int, getLimit: nat, h: Word)
    requires Holders(d, userWord) == {h}
    ensures var data := RpcGetWordsWithTarget(d, userWord, letter, offset, getLimit).data;
            |data| > 0 && data[0] == h && SmallestFew(data[1..], Candidates(d, userWord, letter, offset), getLimit)
  {
    var fit := Candidates(d, userWord, letter, offset);
    AnswerData(d, userWord, letter, offset, getLimit, h);
    HeadAndFew(h, Ordered(fit, userWord), getLimit);
    OrderedBySerial(fit, userWord);
    PrefixIsSmallest(Ordered(fit, userWord), fit, getLimit);
  }

  /** Word texts are unique; the schema only indexes them. */
  predicate UniqueTexts(d: Dictionary) {
    forall a, b | a in d && b in d && a.text == b.text :: a == b
  }

  lemma ReplyIsSmallest(d: Dictionary, userWord: string, letter: string, offset: int, getLimit: nat)
    requires UniqueTexts(d)
    requires var res := RpcGetWordsWithTarget(d, userWord, letter, offset, getLimit); res.found && |res.data| > 1
    ensures SmallestSerial(RpcGetWordsWithTarget(d, userWord, letter, offset, getLimit).data[1],
                           Candidates(d, userWord, letter, offset))
  {
    FoundMeansKnown(d, userWord, letter, offset, getLimit);
    var h :| h in Holders(d, userWord);
    assert Holders(d, userWord) == {h};
    BotReply(d, userWord, letter, offset, getLimit);
  }

  lemma HoldersSingleton(d: Dictionary, text: string, h: Word)
    requires |Holders(d, text)| == 1 && h in Holders(d, text)
    ensures Holders(d, text) == {h}
  {
    var rest := Holders(d, text) - {h};
    assert |rest| == 0;
  }

  /** With a reply in hand, the bot answers with a word other than the user's exactly when one row holds that word. */
  lemma ReplyDiffers(d: Dictionary, userWord: string, letter: string, offset: int, getLimit: nat)
    requires Holders(d, userWord) != {}
    requires |RpcGetWordsWithTarget(d, userWord, letter, offset, getLimit).data| > 1
    ensures RpcGetWordsWithTarget(d, userWord, letter, offset, getLimit).data[1].text != userWord
            <==> |Holders(d, userWord)| == 1
  {
    var res := RpcGetWordsWithTarget(d, userWord, letter, offset, getLimit);
    var rows := Matching(d, userWord, letter, offset);
    OrderedHead(rows, userWord);
    var first := First(rows, userWord);
    var h :| h in Holders(d, userWord);
    assert h in rows;
    assert first.text == userWord;
    var rest := rows - {first};
    var holders := Holders(d, userWord);
    if |holders| == 1 {
      HoldersSingleton(d, userWord, first);
      assert res.data[1] in rest;
      assert res.data[1] in d;
    } else {
      var others := holders - {first};
      assert |others| > 0;
      var o :| o in others;
      assert o in rest;
      assert Rank(First(rest, userWord), userWord) == 0;
    }
  }
}
