/** The question bank (screens/admin/BankSoal.tsx): the subject filter, the
    single-question form with its type switch, and the bulk upload that pairs
    numbered image files with an answer-key text file. */
module BankSoal {
  import opened Common
  import opened Types
  import App

  // ---------------------------------------------------------------------------
  // Key lines: /^(\d+)\s*[.:]\s*([A-Ea-e])\s*$/

  /** The pieces of a key line matched by the pattern. */
  datatype KeyParts = KeyParts(digits: string, space1: string, sep: char, space2: string, letter: char, space3: string)

  predicate WellFormed(p: KeyParts) {
    && p.digits != [] && AllDigits(p.digits)
    && Blank(p.space1)
    && (p.sep == '.' || p.sep == ':')
    && Blank(p.space2)
    && LetterLabel(p.letter).Some?
    && Blank(p.space3)
  }

  function Compose(p: KeyParts): string {
    p.digits + (p.space1 + ([p.sep] + (p.space2 + ([p.letter] + p.space3))))
  }

  /** `([A-Ea-e])\s*$`: one letter, then only white space. */
  function SplitLetter(s: string): (r: Option<(char, string)>)
    ensures r.Some? ==> LetterLabel(r.value.0).Some? && Blank(r.value.1) && s == [r.value.0] + r.value.1
  {
    if s == [] || LetterLabel(s[0]).None? || !Blank(s[1..]) then None
    else
      assert s == [s[0]] + s[1..];
      Some((s[0], s[1..]))
  }

  /** `\s*([A-Ea-e])\s*$`, the part after the separator. */
  function SplitAfterSep(s: string): (r: Option<(string, char, string)>)
    ensures r.Some? ==> Blank(r.value.0) && LetterLabel(r.value.1).Some? && Blank(r.value.2) &&
                        s == r.value.0 + ([r.value.1] + r.value.2)
  {
    var w := SpaceRun(s);
    match SplitLetter(s[w..])
    case None => None
    case Some(lt) =>
      assert s == s[..w] + s[w..];
      Some((s[..w], lt.0, lt.1))
  }

  /** `\s*[.:]\s*([A-Ea-e])\s*$`, the part after the digits. */
  function SplitAfterDigits(s: string): (r: Option<(string, char, string, char, string)>)
    ensures r.Some? ==> Blank(r.value.0) && (r.value.1 == '.' || r.value.1 == ':') && Blank(r.value.2) &&
                        LetterLabel(r.value.3).Some? && Blank(r.value.4) &&
                        s == r.value.0 + ([r.value.1] + (r.value.2 + ([r.value.3] + r.value.4)))
  {
    var w := SpaceRun(s);
    if w == |s| || !(s[w] == '.' || s[w] == ':') then None
    else
      match SplitAfterSep(s[w + 1..])
      case None => None
      case Some(t) =>
        SeparatorThenRest(s, w, t.0 + ([t.1] + t.2));
        Some((s[..w], s[w], t.0, t.1, t.2))
  }

  /** A string cut before position `w` and after it is the two pieces around `s[w]`. */
  lemma SeparatorThenRest(s: string, w: nat, tail: string)
    requires w < |s| && s[w + 1..] == tail
    ensures s == s[..w] + ([s[w]] + tail)
  {
    assert s[w..] == [s[w]] + s[w + 1..];
    assert s == s[..w] + s[w..];
  }

  /** The anchored match of one line. Each quantifier in the pattern is
      followed by something it cannot consume, so the greedy maximal runs are
      the only way to match. */
  function SplitKeyLine(line: string): (r: Option<KeyParts>)
    ensures r.Some? ==> WellFormed(r.value) && Compose(r.value) == line
  {
    var n := DigitRun(line);
    if n == 0 then None
    else
      match SplitAfterDigits(line[n..])
      case None => None
      case Some(t) =>
        DigitsThenRest(line, n, t.0 + ([t.1] + (t.2 + ([t.3] + t.4))));
        Some(KeyParts(line[..n], t.0, t.1, t.2, t.3, t.4))
  }

  /** A line is its digit run followed by the rest. */
  lemma DigitsThenRest(line: string, n: nat, rest: string)
    requires n <= |line| && line[n..] == rest
    ensures line == line[..n] + rest
  {
  }

  lemma SplitAfterSepComplete(w: string, c: char, t: string)
    requires Blank(w) && LetterLabel(c).Some? && Blank(t)
    ensures SplitAfterSep(w + ([c] + t)) == Some((w, c, t))
  {
    SpaceRunOfConcat(w, [c] + t);
    assert (w + ([c] + t))[..|w|] == w;
    assert (w + ([c] + t))[|w|..] == [c] + t;
    assert ([c] + t)[1..] == t;
  }

  lemma SplitAfterDigitsComplete(w1: string, sep: char, w2: string, c: char, t: string)
    requires Blank(w1) && (sep == '.' || sep == ':') && Blank(w2) && LetterLabel(c).Some? && Blank(t)
    ensures SplitAfterDigits(w1 + ([sep] + (w2 + ([c] + t)))) == Some((w1, sep, w2, c, t))
  {
    var rest := [sep] + (w2 + ([c] + t));
    SpaceRunOfConcat(w1, rest);
    assert (w1 + rest)[..|w1|] == w1;
    assert (w1 + rest)[|w1|..] == rest;
    assert rest[1..] == w2 + ([c] + t);
    SplitAfterSepComplete(w2, c, t);
  }

  /** Every line of the documented shape matches, with exactly its pieces. */
  lemma SplitKeyLineComplete(p: KeyParts)
    requires WellFormed(p)
    ensures SplitKeyLine(Compose(p)) == Some(p)
  {
    var rest := p.space1 + ([p.sep] + (p.space2 + ([p.letter] + p.space3)));
    DigitRunOfConcat(p.digits, rest);
    assert (p.digits + rest)[..|p.digits|] == p.digits;
    assert (p.digits + rest)[|p.digits|..] == rest;
    SplitAfterDigitsComplete(p.space1, p.sep, p.space2, p.letter, p.space3);
  }

  /** A letter read as a label is that label's letter, in upper or lower case. */
  lemma LetterSpellsLabel(c: char)
    requires LetterLabel(c).Some?
    ensures var t := LabelText(LetterLabel(c).value)[0]; c == t || c == LowerChar(t)
  {
    if c == 'A' || c == 'a' {
    } else if c == 'B' || c == 'b' {
    } else if c == 'C' || c == 'c' {
    } else if c == 'D' || c == 'd' {
    } else {
    }
  }

  /** The number and the key a line contributes: the decimal value of the
      digits and the letter as a label (stored in upper case). */
  function ParseKeyLine(line: string): (r: Option<(nat, Label)>)
    ensures r.Some? <==> SplitKeyLine(line).Some?
    ensures r.Some? ==> var p := SplitKeyLine(line).value;
              r.value.0 == DecimalValue(p.digits) &&
              (p.letter == LabelText(r.value.1)[0] || p.letter == LowerChar(LabelText(r.value.1)[0]))
  {
    var split := SplitKeyLine(line);
    if split.None? then None
    else
      var p := split.value;
      LetterSpellsLabel(p.letter);
      Some((DecimalValue(p.digits), LetterLabel(p.letter).value))
  }

  /** What each line contributes, in line order. */
  function ParsedLines(lines: seq<string>): (r: seq<Option<(nat, Label)>>)
    ensures |r| == |lines| && forall i :: 0 <= i < |lines| ==> r[i] == ParseKeyLine(lines[i])
  {
    seq(|lines|, i requires 0 <= i < |lines| => ParseKeyLine(lines[i]))
  }

  /** `keysMap` after the `forEach` over the entries: later entries overwrite
      earlier ones with the same number. */
  function KeysFrom(entries: seq<Option<(nat, Label)>>): map<nat, Label>
  {
    if entries == [] then map[]
    else
      var prev := KeysFrom(entries[..|entries| - 1]);
      match entries[|entries| - 1]
      case None => prev
      case Some(entry) => prev[entry.0 := entry.1]
  }

  function KeysOf(lines: seq<string>): map<nat, Label> {
    KeysFrom(ParsedLines(lines))
  }

  /** A number maps to the key of the last entry carrying it. */
  lemma {:induction false} KeysFromLastWins(entries: seq<Option<(nat, Label)>>, i: nat)
    requires i < |entries| && entries[i].Some?
    requires forall j :: i < j < |entries| ==> entries[j].None? || entries[j].value.0 != entries[i].value.0
    ensures entries[i].value.0 in KeysFrom(entries)
    ensures KeysFrom(entries)[entries[i].value.0] == entries[i].value.1
  {
    var front := entries[..|entries| - 1];
    if i < |entries| - 1 {
      assert front[i] == entries[i];
      forall j | i < j < |front|
        ensures front[j].None? || front[j].value.0 != front[i].value.0
      {
        assert front[j] == entries[j];
      }
      KeysFromLastWins(front, i);
    }
  }

  /** Every entry of the map comes from some matching line. */
  lemma {:induction false} KeysFromSource(entries: seq<Option<(nat, Label)>>, n: nat)
    requires n in KeysFrom(entries)
    ensures exists i :: 0 <= i < |entries| && entries[i] == Some((n, KeysFrom(entries)[n]))
  {
    var front := entries[..|entries| - 1];
    var last := entries[|entries| - 1];
    if last.Some? && last.value.0 == n {
      assert entries[|entries| - 1] == Some((n, KeysFrom(entries)[n]));
    } else {
      KeysFromSource(front, n);
      var i :| 0 <= i < |front| && front[i] == Some((n, KeysFrom(front)[n]));
      assert entries[i] == front[i];
    }
  }

  /** The map is empty exactly when no entry is present. */
  lemma {:induction false} KeysFromEmpty(entries: seq<Option<(nat, Label)>>)
    ensures KeysFrom(entries) == map[] <==> forall i :: 0 <= i < |entries| ==> entries[i].None?
  {
    if entries != [] {
      var front := entries[..|entries| - 1];
      KeysFromEmpty(front);
      var last := entries[|entries| - 1];
      if last.Some? {
        assert last.value.0 in KeysFrom(entries);
      } else {
        forall i | 0 <= i < |front| ensures entries[i] == front[i] {
        }
      }
    }
  }

  /** The key of a number is that of the last line carrying it. */
  lemma KeysOfLastWins(lines: seq<string>, i: nat)
    requires i < |lines| && ParseKeyLine(lines[i]).Some?
    requires forall j :: i < j < |lines| ==>
               ParseKeyLine(lines[j]).None? || ParseKeyLine(lines[j]).value.0 != ParseKeyLine(lines[i]).value.0
    ensures ParseKeyLine(lines[i]).value.0 in KeysOf(lines)
    ensures KeysOf(lines)[ParseKeyLine(lines[i]).value.0] == ParseKeyLine(lines[i]).value.1
  {
    KeysFromLastWins(ParsedLines(lines), i);
  }

  /** Every number in the map comes from a matching line with that key. */
  lemma KeysOfFromLine(lines: seq<string>, n: nat)
    requires n in KeysOf(lines)
    ensures exists i :: 0 <= i < |lines| && ParseKeyLine(lines[i]) == Some((n, KeysOf(lines)[n]))
  {
    KeysFromSource(ParsedLines(lines), n);
  }

  /** No key at all exactly when no line matches. */
  lemma KeysOfEmpty(lines: seq<string>)
    ensures KeysOf(lines) == map[] <==> forall i :: 0 <= i < |lines| ==> ParseKeyLine(lines[i]).None?
  {
    KeysFromEmpty(ParsedLines(lines));
  }

  /** Step 1 of `handleBulkUpload`: split on line feeds and fill the map. */
  method ParseKeys(keysText: string) returns (keysMap: map<nat, Label>)
    ensures keysMap == KeysOf(Split(keysText, '\n'))
  {
    var lines := Split(keysText, '\n');
    ghost var entries := ParsedLines(lines);
    keysMap := map[];
    for k := 0 to |lines|
      invariant keysMap == KeysFrom(entries[..k])
    {
      assert entries[..k + 1][..k] == entries[..k];
      var m := ParseKeyLine(lines[k]);
      if m.Some? {
        keysMap := keysMap[m.value.0 := m.value.1];
      }
    }
    assert entries[..|lines|] == entries;
  }

  // ---------------------------------------------------------------------------
  // Image file names: /(\d+)/

  function FirstDigitIndex(s: string): (i: nat)
    ensures i <= |s|
    ensures forall k :: 0 <= k < i ==> !IsDigit(s[k])
    ensures i < |s| ==> IsDigit(s[i])
  {
    if s == [] || IsDigit(s[0]) then 0 else 1 + FirstDigitIndex(s[1..])
  }

  /** The number in a file name: the first maximal run of digits. */
  function FirstNumber(name: string): (r: Option<nat>)
    ensures r.None? <==> forall k :: 0 <= k < |name| ==> !IsDigit(name[k])
  {
    var i := FirstDigitIndex(name);
    if i == |name| then None
    else
      var tail := name[i..];
      assert tail[0] == name[i];
      Some(DecimalValue(tail[..DigitRun(tail)]))
  }

  /** A name made of digit-free text, a numeral and text not starting with a
      digit carries exactly that number. */
  lemma FirstNumberOf(prefix: string, n: nat, suffix: string)
    requires forall k :: 0 <= k < |prefix| ==> !IsDigit(prefix[k])
    requires suffix == [] || !IsDigit(suffix[0])
    ensures FirstNumber(prefix + NatToString(n) + suffix) == Some(n)
  {
    var numeral := NatToString(n);
    var name := prefix + numeral + suffix;
    var i := FirstDigitIndex(name);
    assert name[|prefix|] == numeral[0];
    assert i == |prefix|;
    assert name[i..] == numeral + suffix;
    DigitRunOfConcat(numeral, suffix);
    assert (numeral + suffix)[..|numeral|] == numeral;
  }

  datatype ImageFile = ImageFile(name: string, dataUrl: string)

  datatype NumberedImage = NumberedImage(number: nat, base64: string)

  /** Step 2: every image is read with its number, or the first file whose
      name has no digit rejects the whole upload. */
  datatype ImageRead = Numbered(images: seq<NumberedImage>) | Unnumbered(name: string)

  function ReadImages(files: seq<ImageFile>): (r: ImageRead)
    ensures r.Unnumbered? <==> exists k :: 0 <= k < |files| && FirstNumber(files[k].name).None?
    ensures r.Unnumbered? ==> exists k :: 0 <= k < |files| && FirstNumber(files[k].name).None? && files[k].name == r.name
                                && forall j :: 0 <= j < k ==> FirstNumber(files[j].name).Some?
    ensures r.Numbered? ==> (|r.images| == |files| &&
              forall k :: 0 <= k < |files| ==>
                r.images[k] == NumberedImage(FirstNumber(files[k].name).value, files[k].dataUrl))
  {
    if files == [] then Numbered([])
    else
      var front := files[..|files| - 1];
      var last := files[|files| - 1];
      var prev := ReadImages(front);
      assert forall k :: 0 <= k < |front| ==> front[k] == files[k];
      match prev
      case Unnumbered(_) => prev
      case Numbered(images) =>
        match FirstNumber(last.name)
        case None => Unnumbered(last.name)
        case Some(n) =>
          AppendImage(files, images, n);
          Numbered(images + [NumberedImage(n, last.dataUrl)])
  }

  /** The images read so far, extended by the last file's image, are the
      images of all the files. */
  lemma AppendImage(files: seq<ImageFile>, images: seq<NumberedImage>, n: nat)
    requires files != [] && FirstNumber(files[|files| - 1].name) == Some(n)
    requires |images| == |files| - 1
    requires forall k :: 0 <= k < |files| - 1 ==>
               && FirstNumber(files[k].name).Some?
               && images[k] == NumberedImage(FirstNumber(files[k].name).value, files[k].dataUrl)
    ensures forall k :: 0 <= k < |files| ==>
              && FirstNumber(files[k].name).Some?
              && (images + [NumberedImage(n, files[|files| - 1].dataUrl)])[k]
                   == NumberedImage(FirstNumber(files[k].name).value, files[k].dataUrl)
  {
  }

  // ---------------------------------------------------------------------------
  // Step 3: matching

  /** The question created for an image with a key. */
  function NewQuestion(id: string, subject: string, img: NumberedImage, key: Label): (q: Soal)
    ensures q.mapelId == subject && q.gambar == Some(img.base64)
    ensures q.tipe == PilihanGanda(IdentityPilihan, key) && KunciJawaban(q) == LabelText(key)
  {
    Soal(id, subject, "Soal nomor " + NatToString(img.number) + ". Perhatikan gambar.", Some(img.base64),
         PilihanGanda(IdentityPilihan, key))
  }

  /** The positions of the images whose number has a key, in increasing
      order: one position for every such image. */
  function KeyedIndices(imgs: seq<NumberedImage>, keys: map<nat, Label>): (ks: seq<nat>)
    ensures forall j :: 0 <= j < |ks| ==> ks[j] < |imgs| && imgs[ks[j]].number in keys
    ensures forall i, j :: 0 <= i < j < |ks| ==> ks[i] < ks[j]
    ensures forall k :: 0 <= k < |imgs| && imgs[k].number in keys ==> k in ks
  {
    if imgs == [] then []
    else
      var k := |imgs| - 1;
      var prev := KeyedIndices(imgs[..k], keys);
      assert forall j :: 0 <= j < k ==> imgs[..k][j] == imgs[j];
      if imgs[k].number in keys then prev + [k] else prev
  }

  /** The questions for the images whose number has a key, in image order
      and one per such image; `ids[k]` is the fresh id generated for image `k`. */
  function Matched(imgs: seq<NumberedImage>, keys: map<nat, Label>, subject: string, ids: seq<string>): (r: seq<Soal>)
    requires |ids| >= |imgs|
    ensures var ks := KeyedIndices(imgs, keys);
            && |r| == |ks|
            && forall j :: 0 <= j < |r| ==> r[j] == NewQuestion(ids[ks[j]], subject, imgs[ks[j]], keys[imgs[ks[j]].number])
    ensures |r| <= |imgs|
  {
    if imgs == [] then []
    else
      var k := |imgs| - 1;
      var front := imgs[..k];
      var prev := Matched(front, keys, subject, ids);
      assert forall j :: 0 <= j < k ==> front[j] == imgs[j];
      if imgs[k].number in keys then prev + [NewQuestion(ids[k], subject, imgs[k], keys[imgs[k].number])]
      else prev
  }

  /** Each matched question comes from an image whose number has a key, and
      every such image gives its question. */
  lemma MatchedMembers(imgs: seq<NumberedImage>, keys: map<nat, Label>, subject: string, ids: seq<string>)
    requires |ids| >= |imgs|
    ensures var r := Matched(imgs, keys, subject, ids);
            && (forall q :: q in r ==>
                  exists k :: 0 <= k < |imgs| && imgs[k].number in keys &&
                              q == NewQuestion(ids[k], subject, imgs[k], keys[imgs[k].number]))
            && (forall k :: 0 <= k < |imgs| && imgs[k].number in keys ==>
                  NewQuestion(ids[k], subject, imgs[k], keys[imgs[k].number]) in r)
  {
    var r := Matched(imgs, keys, subject, ids);
    var ks := KeyedIndices(imgs, keys);
    forall q | q in r
      ensures exists k :: 0 <= k < |imgs| && imgs[k].number in keys &&
                          q == NewQuestion(ids[k], subject, imgs[k], keys[imgs[k].number])
    {
      var j :| 0 <= j < |r| && r[j] == q;
      assert imgs[ks[j]].number in keys;
    }
    forall k | 0 <= k < |imgs| && imgs[k].number in keys
      ensures NewQuestion(ids[k], subject, imgs[k], keys[imgs[k].number]) in r
    {
      var j :| 0 <= j < |ks| && ks[j] == k;
      assert r[j] == NewQuestion(ids[k], subject, imgs[k], keys[imgs[k].number]);
    }
  }

  /** One more image adds its question exactly when its number has a key. */
  lemma MatchedStep(imgs: seq<NumberedImage>, k: nat, keys: map<nat, Label>, subject: string, ids: seq<string>)
    requires k < |imgs| <= |ids|
    ensures Matched(imgs[..k + 1], keys, subject, ids)
            == Matched(imgs[..k], keys, subject, ids) +
               (if imgs[k].number in keys then [NewQuestion(ids[k], subject, imgs[k], keys[imgs[k].number])] else [])
  {
    assert imgs[..k + 1][..k] == imgs[..k];
  }

  /** The matching loop, pushing onto `newQuestions`. */
  method MatchImages(imageData: seq<NumberedImage>, keysMap: map<nat, Label>, subject: string, ids: seq<string>)
    returns (newQuestions: seq<Soal>)
    requires |ids| >= |imageData|
    ensures newQuestions == Matched(imageData, keysMap, subject, ids)
  {
    newQuestions := [];
    for k := 0 to |imageData|
      invariant newQuestions == Matched(imageData[..k], keysMap, subject, ids)
    {
      MatchedStep(imageData, k, keysMap, subject, ids);
      var img := imageData[k];
      if img.number in keysMap {
        newQuestions := newQuestions + [NewQuestion(ids[k], subject, img, keysMap[img.number])];
      }
    }
    assert imageData[..|imageData|] == imageData;
  }

  // ---------------------------------------------------------------------------
  // Outcome of the bulk upload

  datatype UploadStatus = NoStatus | Failure(message: string) | Success(message: string)

  const MissingInputMessage := "Harap pilih file gambar soal dan file kunci jawaban."
  const EmptyKeysMessage := "Format file kunci jawaban tidak valid atau kosong."
  const NoMatchMessage := "Tidak ada soal yang berhasil dicocokkan. Periksa penomoran pada nama file dan kunci jawaban."
  const GenericErrorMessage := "Terjadi kesalahan saat memproses file."

  function InvalidNameMessage(name: string): string {
    "Nama file tidak valid: " + name + ". Harus mengandung nomor soal."
  }

  function SuccessMessage(count: nat): string {
    "Berhasil! " + NatToString(count) + " soal telah ditambahkan."
  }

  /** What reaches the `catch`: a thrown `Error`, or the plain string a
      rejected image promise carries. */
  datatype Thrown = ErrorObject(message: string) | Rejection(reason: string)

  /** `error.message || fallback` as written: a plain string has no `message`
      property, so its text is never shown. */
  function CatchMessageAsWritten(e: Thrown): (m: string)
    ensures e.ErrorObject? && e.message != "" ==> m == e.message
    ensures e.Rejection? ==> m == GenericErrorMessage
  {
    if e.ErrorObject? && e.message != "" then e.message else GenericErrorMessage
  }

  /** The rejection for an unnumbered file gets its carefully worded message
      replaced by the generic one. */
  lemma RejectionReasonIsLost()
    ensures CatchMessageAsWritten(Rejection(InvalidNameMessage("soal.jpg"))) != InvalidNameMessage("soal.jpg")
  {
  }

  /** The message the handler evidently means to show: the text that was thrown
      or rejected, and the fallback only when there is none. */
  function CatchMessage(e: Thrown): (m: string)
    ensures m != ""
    ensures e.ErrorObject? && e.message != "" ==> m == e.message
    ensures e.Rejection? && e.reason != "" ==> m == e.reason
    ensures (e.ErrorObject? && e.message == "") || (e.Rejection? && e.reason == "") ==> m == GenericErrorMessage
  {
    match e
    case ErrorObject(msg) => if msg != "" then msg else GenericErrorMessage
    case Rejection(reason) => if reason != "" then reason else GenericErrorMessage
  }

  /** Which `catch` the upload runs: the one written, which loses the text of
      a plain-string rejection, or the one evidently intended. */
  datatype CatchRule = AsWritten | Intended

  function Caught(rule: CatchRule, e: Thrown): (m: string)
    ensures rule.AsWritten? ==> m == CatchMessageAsWritten(e)
    ensures rule.Intended? ==> m == CatchMessage(e)
  {
    if rule.AsWritten? then CatchMessageAsWritten(e) else CatchMessage(e)
  }

  /** Status and appended questions of `handleBulkUpload` under the given
      `catch`, for the chosen images, the key file's text, the selected
      subject and the fresh ids. */
  function BulkOutcome(rule: CatchRule, images: Option<seq<ImageFile>>, keysText: Option<string>, subject: string, ids: seq<string>)
    : (out: (UploadStatus, seq<Soal>))
    requires images.Some? ==> |ids| >= |images.value|
    ensures out.0.Failure? <==> out.1 == []
    ensures out.0.Success? ==> out.0.message == SuccessMessage(|out.1|)
    ensures images.None? || keysText.None? || subject == "" ==> out.0 == Failure(MissingInputMessage)
    ensures images.Some? && keysText.Some? && subject != "" && KeysOf(Split(keysText.value, '\n')) == map[] ==>
              out.0 == Failure(EmptyKeysMessage)
    ensures images.Some? && keysText.Some? && subject != "" && KeysOf(Split(keysText.value, '\n')) != map[] &&
            ReadImages(images.value).Unnumbered? ==>
              out.0 == Failure(if rule.AsWritten? then GenericErrorMessage else InvalidNameMessage(ReadImages(images.value).name))
    ensures images.Some? && keysText.Some? && subject != "" && KeysOf(Split(keysText.value, '\n')) != map[] &&
            ReadImages(images.value).Numbered? &&
            Matched(ReadImages(images.value).images, KeysOf(Split(keysText.value, '\n')), subject, ids) == [] ==>
              out.0 == Failure(NoMatchMessage)
    ensures images.Some? && keysText.Some? && subject != "" && KeysOf(Split(keysText.value, '\n')) != map[] &&
            ReadImages(images.value).Numbered? &&
            Matched(ReadImages(images.value).images, KeysOf(Split(keysText.value, '\n')), subject, ids) != [] ==>
              var added := Matched(ReadImages(images.value).images, KeysOf(Split(keysText.value, '\n')), subject, ids);
              out == (Success(SuccessMessage(|added|)), added)
    ensures out.0.Success? ==> (images.Some? && keysText.Some? && ReadImages(images.value).Numbered? &&
              out.1 == Matched(ReadImages(images.value).images, KeysOf(Split(keysText.value, '\n')), subject, ids))
    ensures forall q :: q in out.1 ==> q.mapelId == subject && q.tipe.PilihanGanda? && q.tipe.pilihan == IdentityPilihan
  {
    if images.None? || keysText.None? || subject == "" then (Failure(MissingInputMessage), [])
    else
      var keys := KeysOf(Split(keysText.value, '\n'));
      if keys == map[] then (Failure(Caught(rule, ErrorObject(EmptyKeysMessage))), [])
      else
        match ReadImages(images.value)
        case Unnumbered(name) => (Failure(Caught(rule, Rejection(InvalidNameMessage(name)))), [])
        case Numbered(imgs) =>
          var added := Matched(imgs, keys, subject, ids);
          MatchedMembers(imgs, keys, subject, ids);
          if added == [] then (Failure(Caught(rule, ErrorObject(NoMatchMessage))), [])
          else (Success(SuccessMessage(|added|)), added)
  }

  /** The upload of one key line `1. A` and one image `soal.jpg`: the written
      handler shows the generic text, the intended one the file's own message. */
  lemma BulkRejectionIsLost()
    ensures BulkOutcome(AsWritten, Some([ImageFile("soal.jpg", "d")]), Some("1. A"), "m1", ["q"]).0
            == Failure(GenericErrorMessage)
    ensures BulkOutcome(Intended, Some([ImageFile("soal.jpg", "d")]), Some("1. A"), "m1", ["q"]).0
            == Failure(InvalidNameMessage("soal.jpg"))
  {
    OneKeyLine();
    NoNumberInName();
  }

  lemma OneKeyLine()
    ensures KeysOf(Split("1. A", '\n')) != map[]
  {
    KeyLineParses();
    SingleLine();
    KeysOfEmpty(["1. A"]);
  }

  lemma KeyLineParses()
    ensures ParseKeyLine("1. A").Some?
  {
    var p := KeyParts("1", "", '.', " ", 'A', "");
    assert Compose(p) == "1. A";
    SplitKeyLineComplete(p);
  }

  lemma SingleLine()
    ensures Split("1. A", '\n') == ["1. A"]
  {
    var line := "1. A";
    assert Join([line], '\n') == line;
    assert '\n' !in line by {
      forall k | 0 <= k < |line| ensures line[k] != '\n' {}
    }
    SplitJoin([line], '\n');
  }

  lemma NoNumberInName()
    ensures ReadImages([ImageFile("soal.jpg", "d")]) == Unnumbered("soal.jpg")
  {
    forall k | 0 <= k < |"soal.jpg"| ensures !IsDigit("soal.jpg"[k]) {}
    assert [ImageFile("soal.jpg", "d")][..0] == [];
  }

  /** Every question a successful upload adds is the question of one uploaded
      image whose number has a key, with that key. */
  lemma BulkQuestionsFromKeyedImages(rule: CatchRule, images: seq<ImageFile>, keysText: string, subject: string, ids: seq<string>, q: Soal)
    requires |ids| >= |images|
    requires q in BulkOutcome(rule, Some(images), Some(keysText), subject, ids).1
    ensures exists k :: 0 <= k < |images| && FirstNumber(images[k].name).Some? &&
              FirstNumber(images[k].name).value in KeysOf(Split(keysText, '\n')) &&
              q == NewQuestion(ids[k], subject, NumberedImage(FirstNumber(images[k].name).value, images[k].dataUrl),
                               KeysOf(Split(keysText, '\n'))[FirstNumber(images[k].name).value])
  {
    var imgs := ReadImages(images).images;
    var keys := KeysOf(Split(keysText, '\n'));
    MatchedMembers(imgs, keys, subject, ids);
    var k :| 0 <= k < |imgs| && imgs[k].number in keys && q == NewQuestion(ids[k], subject, imgs[k], keys[imgs[k].number]);
    assert imgs[k] == NumberedImage(FirstNumber(images[k].name).value, images[k].dataUrl);
  }

  // ---------------------------------------------------------------------------
  // The single-question form

  datatype TipeName = PilihanGandaTipe | EssayTipe

  /** The form's `newQuestion`: the key is a string for both types. */
  datatype Draft = Draft(pertanyaan: string, tipe: TipeName, kunciJawaban: string, gambar: Option<string>)

  const InitialDraft: Draft := Draft("", PilihanGandaTipe, "A", None)

  /** The upper-case letter of a label. */
  predicate IsLabelText(s: string) {
    |s| == 1 && 'A' <= s[0] <= 'E'
  }

  /** The text fields the form's inputs write through the generic handler. */
  datatype Field = PertanyaanField | KunciField

  /** `handleQuestionInputChange` for the type select: multiple choice resets
      the key to "A", essay to the empty text. */
  function SwitchType(d: Draft, newType: TipeName): (r: Draft)
    ensures r.tipe == newType && r.pertanyaan == d.pertanyaan && r.gambar == d.gambar
    ensures newType.PilihanGandaTipe? ==> r.kunciJawaban == "A"
    ensures newType.EssayTipe? ==> r.kunciJawaban == ""
  {
    d.(tipe := newType, kunciJawaban := if newType.PilihanGandaTipe? then "A" else "")
  }

  function LabelOfText(s: string): (l: Label)
    requires IsLabelText(s)
    ensures LabelText(l) == s
  {
    if s[0] == 'A' then A else if s[0] == 'B' then B else if s[0] == 'C' then C else if s[0] == 'D' then D else E
  }

  /** The stored question: multiple choice gets the identity options, an
      essay no options; the key text is kept verbatim. */
  function DraftToSoal(d: Draft, subject: string, id: string): (q: Soal)
    requires d.tipe.PilihanGandaTipe? ==> IsLabelText(d.kunciJawaban)
    ensures q.id == id && q.mapelId == subject && q.pertanyaan == d.pertanyaan && q.gambar == d.gambar
    ensures q.tipe.PilihanGanda? <==> d.tipe.PilihanGandaTipe?
    ensures q.tipe.PilihanGanda? ==> q.tipe.pilihan == IdentityPilihan
    ensures KunciJawaban(q) == d.kunciJawaban
  {
    Soal(id, subject, d.pertanyaan, d.gambar,
         if d.tipe.PilihanGandaTipe? then PilihanGanda(IdentityPilihan, LabelOfText(d.kunciJawaban))
         else Essay(d.kunciJawaban))
  }

  const AddedMessage := "Soal berhasil ditambahkan! Silakan tambah lagi."

  /** `filteredQuestions`: nothing without a subject, otherwise exactly that
      subject's questions. */
  function FilteredQuestions(questions: seq<Soal>, selectedSubject: string): (r: seq<Soal>)
    ensures selectedSubject == "" ==> r == []
    ensures selectedSubject != "" ==> (forall q :: q in r <==> q in questions && q.mapelId == selectedSubject)
  {
    if selectedSubject == "" then [] else SubjectQuestions(questions, selectedSubject)
  }

  class BankSoalScreen {
    var selectedSubject: string
    var newQuestion: Draft
    var successMessage: string
    var bulkUploadStatus: UploadStatus

    /** A multiple-choice draft always holds one of the keys A..E. */
    ghost predicate Valid()
      reads this
    {
      newQuestion.tipe.PilihanGandaTipe? ==> IsLabelText(newQuestion.kunciJawaban)
    }

    constructor ()
      ensures Valid()
      ensures selectedSubject == "" && newQuestion == InitialDraft && successMessage == "" && bulkUploadStatus == NoStatus
    {
      selectedSubject, newQuestion, successMessage, bulkUploadStatus := "", InitialDraft, "", NoStatus;
    }

    method SelectSubject(subject: string)
      modifies this`selectedSubject
      ensures selectedSubject == subject
    {
      selectedSubject := subject;
    }

    /** `openModal`. */
    method OpenModal()
      modifies this`newQuestion, this`successMessage
      ensures Valid() && newQuestion == InitialDraft && successMessage == ""
    {
      newQuestion, successMessage := InitialDraft, "";
    }

    method HandleTypeChange(newType: TipeName)
      requires Valid()
      modifies this`newQuestion
      ensures Valid() && newQuestion == SwitchType(old(newQuestion), newType)
    {
      newQuestion := SwitchType(newQuestion, newType);
    }

    /** The generic branch of `handleQuestionInputChange`; while the draft is
        multiple choice the key comes from one of the radio buttons A..E. */
    method HandleFieldChange(field: Field, value: string)
      requires Valid()
      requires field.KunciField? && newQuestion.tipe.PilihanGandaTipe? ==> IsLabelText(value)
      modifies this`newQuestion
      ensures Valid()
      ensures field.PertanyaanField? ==> newQuestion == old(newQuestion).(pertanyaan := value)
      ensures field.KunciField? ==> newQuestion == old(newQuestion).(kunciJawaban := value)
    {
      match field
      case PertanyaanField => newQuestion := newQuestion.(pertanyaan := value);
      case KunciField => newQuestion := newQuestion.(kunciJawaban := value);
    }

    /** The image picked for the draft, as the data URL the reader produced. */
    method HandleImageUpload(dataUrl: Option<string>)
      requires Valid()
      modifies this`newQuestion
      ensures Valid() && newQuestion == old(newQuestion).(gambar := dataUrl)
    {
      newQuestion := newQuestion.(gambar := dataUrl);
    }

    /** `handleAddQuestion`: with a subject and a question text the draft is
        stored and reset (keeping its type); otherwise nothing changes. */
    method HandleAddQuestion(store: App.Store, id: string)
      requires Valid()
      modifies store`questions, this`newQuestion, this`successMessage
      ensures Valid()
      ensures selectedSubject != "" && old(newQuestion).pertanyaan != "" ==>
                && store.questions == old(store.questions) + [DraftToSoal(old(newQuestion), selectedSubject, id)]
                && newQuestion == InitialDraft.(tipe := old(newQuestion).tipe)
                && successMessage == AddedMessage
      ensures !(selectedSubject != "" && old(newQuestion).pertanyaan != "") ==>
                store.questions == old(store.questions) && newQuestion == old(newQuestion) &&
                successMessage == old(successMessage)
    {
      if selectedSubject != "" && newQuestion.pertanyaan != "" {
        var questionToAdd := DraftToSoal(newQuestion, selectedSubject, "");
        store.AddQuestion(questionToAdd, id);
        newQuestion := InitialDraft.(tipe := newQuestion.tipe);
        successMessage := AddedMessage;
      }
    }

    /** `handleBulkUpload` as written; `ids[k]` is the fresh id for image `k`. */
    method HandleBulkUpload(store: App.Store, bulkImages: Option<seq<ImageFile>>, bulkKeysText: Option<string>, ids: seq<string>)
      requires bulkImages.Some? ==> |ids| >= |bulkImages.value|
      modifies store`questions, this`bulkUploadStatus
      ensures bulkUploadStatus == BulkOutcome(AsWritten, bulkImages, bulkKeysText, selectedSubject, ids).0
      ensures store.questions == old(store.questions) + BulkOutcome(AsWritten, bulkImages, bulkKeysText, selectedSubject, ids).1
    {
      if bulkImages.None? || bulkKeysText.None? || selectedSubject == "" {
        bulkUploadStatus := Failure(MissingInputMessage);
        return;
      }
      var keysMap := ParseKeys(bulkKeysText.value);
      if keysMap == map[] {
        bulkUploadStatus := Failure(CatchMessageAsWritten(ErrorObject(EmptyKeysMessage)));
        return;
      }
      var imageData := ReadImages(bulkImages.value);
      if imageData.Unnumbered? {
        bulkUploadStatus := Failure(CatchMessageAsWritten(Rejection(InvalidNameMessage(imageData.name))));
        return;
      }
      var newQuestions := MatchImages(imageData.images, keysMap, selectedSubject, ids);
      if newQuestions == [] {
        bulkUploadStatus := Failure(CatchMessageAsWritten(ErrorObject(NoMatchMessage)));
        return;
      }
      store.AppendQuestions(newQuestions);
      bulkUploadStatus := Success(SuccessMessage(|newQuestions|));
    }
  }
}
