/**
 * The decision logic of the `process` request handler, with the web
 * request, the session, the temporary files and the mail transport taken
 * out: the upload is read by the extractor its name selects, the text is
 * parsed, and the record feeds the table, the subject and the body.
 */
module Upload {
  import opened Options
  import opened Strings
  import opened Loader
  import opened Parser
  import opened Sheet
  import opened Notice

  /** What `process` prepares for `send_email_with_attachment` from one upload. */
  datatype Submission = Submission(info: TransferInfo, table: Table, subject: string, body: string)

  /**
   * One upload run through `process`: `pdf` and `image` are what the two
   * readers would yield for the uploaded bytes, `email` is the logged-in
   * user's address, and `timestamp` the formatted time of the table.
   */
  function Process(filename: string, pdf: PdfReading, image: ImageReading, username: string,
                   email: string, trayType: string, quantity: string, timestamp: string): Submission
  {
    var text := LoadText(filename, pdf, image);
    var info := Parse(text);
    Submission(info, BuildTable(info, username, trayType, quantity, timestamp),
               Subject(info), Body(info, username, email, trayType, quantity))
  }

  /** Empty text, the result of every failed extraction, parses to the blank record. */
  lemma {:induction false} EmptyTextGivesBlank(text: string)
    requires |text| == 0
    ensures Parse(text) == Blank
  {
    assert Split(text, '\n') == [text];
    forall line | line in Split(text, '\n') ensures NoKeyword(line) {
      forall f: Field ensures !HasKeyword(line, f) {
        NoFirstCharNoKeyword(line, f);
      }
    }
    NoKeywordsGiveBlank(text);
  }

  /**
   * An upload that yields no text still produces a table and a subject:
   * the four parsed cells are "", the parameters are copied, the status is
   * "Pending", and the subject is the bare prefix.
   */
  lemma {:induction false} EmptyTextStillSubmits(filename: string, pdf: PdfReading, image: ImageReading,
                                                 username: string, email: string, trayType: string,
                                                 quantity: string, timestamp: string)
    requires |LoadText(filename, pdf, image)| == 0
    ensures var s := Process(filename, pdf, image, username, email, trayType, quantity, timestamp);
            && s.info == Blank
            && s.table.header == Columns
            && s.table.row == ["", "", "", "", username, trayType, quantity, "Pending", timestamp]
            && s.subject == "Transfer Order - "
  {
    EmptyTextGivesBlank(LoadText(filename, pdf, image));
  }

  /** An unreadable file of the kind its name selects yields no text. */
  lemma {:induction false} UnreadableGivesNoText(filename: string, pdf: PdfReading, image: ImageReading)
    requires IsPdfName(filename) ==> pdf.PdfUnreadable?
    requires !IsPdfName(filename) ==> image.ImageUnreadable? || image == ImageCodes([])
    ensures |LoadText(filename, pdf, image)| == 0
  {
  }

  // ---------------------------------------------------------------------
  // A document of four labelled lines
  // ---------------------------------------------------------------------

  /** A line `word: value`, as the transfer forms print them. */
  function Labelled(word: string, value: string): string {
    word + ": " + value
  }

  /** What a colon branch reads from the line `word: value` once it is stripped. */
  function LabelValue(word: string, value: string): string {
    AfterColon(Strip(Labelled(word, value)))
  }

  /** The four labelled lines, one under the other. */
  function Document(n: string, d: string, c: string, a: string): string {
    Labelled(OrderWord, n) + "\n" + Labelled(DateWord, d) + "\n"
    + Labelled(CustomerWord, c) + "\n" + Labelled(AddressWord, a)
  }

  /** A non-empty run of ASCII digits. */
  predicate AllDigits(n: string) {
    |n| > 0 && forall k :: 0 <= k < |n| ==> IsDigit(n[k])
  }

  /** A free-text value that survives `split(':')[-1].strip()` unchanged. */
  predicate Bare(v: string) {
    && |v| > 0 && !IsSpace(v[0]) && !IsSpace(v[|v| - 1])
    && ':' !in v && '\n' !in v
  }

  /**
   * `v` holds no keyword of a branch tried before `f`'s, so a line
   * `word: v` is not taken by an earlier branch on account of `v`.
   */
  predicate Avoids(v: string, f: Field) {
    forall g: Field :: Rank(g) < Rank(f) ==> !HasKeyword(v, g)
  }

  /** A line holding neither first character of `f`'s two keywords holds neither keyword. */
  lemma {:induction false} NoFirstCharNoKeyword(line: string, f: Field)
    requires Keywords(f).0[0] !in line && Keywords(f).1[0] !in line
    ensures !HasKeyword(line, f)
  {
    MissingFirstChar(line, Keywords(f).0);
    MissingFirstChar(line, Keywords(f).1);
  }

  /** Stripping one leading space off a value that is otherwise trimmed. */
  lemma {:induction false} StripLeadingSpace(v: string)
    requires |v| > 0 && !IsSpace(v[0]) && !IsSpace(v[|v| - 1])
    ensures Strip(" " + v) == v
  {
    assert TrimStart(v) == v;
    assert (" " + v)[1..] == v;
    assert TrimStart(" " + v) == v;
    assert TrimEnd(v) == v;
  }

  /** The part after the one colon of `name + ":" + rest`, stripped. */
  lemma {:induction false} AfterOneColon(name: string, rest: string)
    requires ':' !in name && ':' !in rest
    ensures AfterColon(name + ":" + rest) == Strip(rest)
  {
    var ps := [name, rest];
    assert Join(ps, ':') == name + ":" + rest by {
      assert Join(ps[1..], ':') == rest;
    }
    SplitJoin(ps, ':');
  }

  /** A labelled line with a printing first and last character is its own strip. */
  lemma {:induction false} LabelledStripped(word: string, v: string)
    requires |word| > 0 && !IsSpace(word[0]) && |v| > 0 && !IsSpace(v[|v| - 1])
    ensures Strip(Labelled(word, v)) == Labelled(word, v)
  {
    var line := Labelled(word, v);
    assert line[0] == word[0] && line[|line| - 1] == v[|v| - 1];
    StripUnchanged(line);
  }

  /** The value a colon branch reads from a labelled line is the value itself. */
  lemma {:induction false} LabelledAfterColon(word: string, v: string)
    requires ':' !in word && Bare(v)
    ensures AfterColon(Labelled(word, v)) == v
  {
    assert Labelled(word, v) == word + ":" + (" " + v);
    AfterOneColon(word, " " + v);
    StripLeadingSpace(v);
  }

  /** A bare value is read back from its labelled line unchanged. */
  lemma {:induction false} LabelValueBare(word: string, v: string)
    requires |word| > 0 && !IsSpace(word[0]) && ':' !in word && Bare(v)
    ensures LabelValue(word, v) == v
  {
    LabelledStripped(word, v);
    LabelledAfterColon(word, v);
  }

  /** A stripped line that branch `f` takes, with value `v`, writes `v` into `f`. */
  lemma {:induction false} StepOfLine(info: TransferInfo, line: string, f: Field, v: string)
    requires Strip(line) == line
    requires Classify(line) == Some(f)
    requires BranchValue(line, f) == Some(v)
    ensures Step(info, line) == With(info, f, v)
  {
    assert LineWrite(line) == Some((f, v));
  }

  /** The characters of a date are digits, '-' and '/'. */
  lemma {:induction false} DateCharacters(d: string)
    requires |d| == 10 && DateAt(d, 0)
    ensures forall k :: 0 <= k < |d| ==> IsDigit(d[k]) || d[k] == '-' || d[k] == '/'
  {
  }

  lemma {:induction false} OrderLineStep(info: TransferInfo, n: string)
    requires AllDigits(n)
    ensures Step(info, Labelled(OrderWord, n)) == info.(orderNumber := n)
  {
    var p := OrderWord + ": ";
    var line := p + n;
    assert line == Labelled(OrderWord, n);
    assert line[0] == 'O' && line[|line| - 1] == n[|n| - 1];
    StripUnchanged(line);
    assert Classify(line) == Some(OrderNumber) by {
      assert OrderWord <= line;
    }
    assert SearchDigits(line) == Some(n) by {
      assert line == p + n + "";
      DigitsAfterNonDigits(p, n, "");
    }
    StepOfLine(info, line, OrderNumber, n);
  }

  lemma {:induction false} DateLineStep(info: TransferInfo, d: string)
    requires |d| == 10 && DateAt(d, 0)
    ensures Step(info, Labelled(DateWord, d)) == info.(date := d)
  {
    var p := DateWord + ": ";
    var line := p + d;
    assert line == Labelled(DateWord, d);
    assert line[0] == 'D' && line[|line| - 1] == d[9];
    StripUnchanged(line);
    assert Classify(line) == Some(Date) by {
      DateCharacters(d);
      assert 'O' !in line && '\U{8ba2}' !in line;
      NoFirstCharNoKeyword(line, OrderNumber);
      assert DateWord <= line;
    }
    assert SearchDate(line) == Some(d) by {
      assert line == p + d + "";
      DateAfterNonDigits(p, d, "");
    }
    StepOfLine(info, line, Date, d);
  }

  /**
   * Stripping the line `word: v`, for a word that starts with a printing
   * character, only removes whitespace at its end: the result starts with
   * the word and the colon, and the rest of the line is whitespace.
   */
  lemma {:induction false} StripLabelled(word: string, v: string)
    requires |word| > 0 && !IsSpace(word[0])
    ensures var line, s := Labelled(word, v), Strip(Labelled(word, v));
            && |word| < |s| <= |line| && s == line[..|s|] && word <= s
            && forall k :: |s| <= k < |line| ==> IsSpace(line[k])
  {
    var line := Labelled(word, v);
    var s := Strip(line);
    var i :| Trimmed(line, i, s);
    assert !IsSpace(line[0]);
    assert i == 0;
    assert !IsSpace(line[|word|]);
    assert |word| < |s|;
    assert s[..|word|] == line[..|word|] == word;
  }

  /**
   * A keyword whose first character is not in `word: ` occurs in the
   * stripped line `word: v` only if it occurs in `v`.
   */
  lemma {:induction false} LabelledKeywordFromValue(word: string, v: string, kw: string)
    requires |word| > 0 && !IsSpace(word[0])
    requires |kw| > 0 && kw[0] !in word + ": "
    ensures Contains(Strip(Labelled(word, v)), kw) ==> Contains(v, kw)
  {
    var line := Labelled(word, v);
    var s := Strip(line);
    StripLabelled(word, v);
    assert line[0..|s|] == s;
    ContainsWithin(line, 0, |s|, kw);
    PrefixAddsNone(word + ": ", v, kw);
  }

  /**
   * A keyword that ends with a printing character and occurs in `v` occurs
   * in the stripped line `word: v` too.
   */
  lemma {:induction false} LabelledKeywordToLine(word: string, v: string, kw: string)
    requires |word| > 0 && !IsSpace(word[0])
    requires |kw| > 0 && !IsSpace(kw[|kw| - 1])
    ensures Contains(v, kw) ==> Contains(Strip(Labelled(word, v)), kw)
  {
    var line := Labelled(word, v);
    var s := Strip(line);
    if Contains(v, kw) {
      ContainsOccurs(v, kw);
      var j :| OccursAt(v, kw, j);
      var i := |word| + 2 + j;
      OccursAfterPrefix(word + ": ", v, kw, j);
      StripLabelled(word, v);
      assert line[i + |kw| - 1] == kw[|kw| - 1];
      OccursInPrefix(line, s, kw, i);
      OccursContains(s, kw, i);
    }
  }

  /** Every keyword is non-empty and starts and ends with a printing character. */
  lemma {:induction false} KeywordsPrint(g: Field)
    ensures var k0, k1 := Keywords(g).0, Keywords(g).1;
            && |k0| > 0 && !IsSpace(k0[0]) && !IsSpace(k0[|k0| - 1])
            && |k1| > 0 && !IsSpace(k1[0]) && !IsSpace(k1[|k1| - 1])
  {
  }

  /**
   * The stripped line `w: v`, with `w` the first keyword of field `f`,
   * goes to `f`'s branch exactly when `v` holds no keyword of an earlier
   * branch, given that no such keyword starts with a character of `w: `.
   */
  lemma {:induction false} LabelledClass(f: Field, v: string)
    requires forall g: Field :: Rank(g) < Rank(f) ==>
               Keywords(g).0[0] !in Keywords(f).0 + ": " && Keywords(g).1[0] !in Keywords(f).0 + ": "
    ensures Classify(Strip(Labelled(Keywords(f).0, v))) == Some(f) <==> Avoids(v, f)
  {
    var word := Keywords(f).0;
    var s := Strip(Labelled(word, v));
    KeywordsPrint(f);
    StripLabelled(word, v);
    assert Contains(s, word);
    ClassifyIsFirstKeyword(s, f);
    forall g: Field | Rank(g) < Rank(f) ensures HasKeyword(s, g) <==> HasKeyword(v, g) {
      KeywordsPrint(g);
      LabelledKeywordFromValue(word, v, Keywords(g).0);
      LabelledKeywordFromValue(word, v, Keywords(g).1);
      LabelledKeywordToLine(word, v, Keywords(g).0);
      LabelledKeywordToLine(word, v, Keywords(g).1);
    }
  }

  /**
   * The stripped line `Customer: c` goes to the customer branch exactly
   * when `c` holds no order or date keyword.
   */
  lemma {:induction false} CustomerLineClass(c: string)
    ensures Classify(Strip(Labelled(CustomerWord, c))) == Some(Customer) <==> Avoids(c, Customer)
  {
    LabelledClass(Customer, c);
  }

  /**
   * The line `Customer: c`, for a `c` holding no order or date keyword,
   * stores the stripped text after its last colon as the customer, which
   * for a bare `c` is `c` itself.
   */
  lemma {:induction false} CustomerLineStep(info: TransferInfo, c: string)
    requires Avoids(c, Customer)
    ensures Step(info, Labelled(CustomerWord, c)) == info.(customer := LabelValue(CustomerWord, c))
    ensures Bare(c) ==> LabelValue(CustomerWord, c) == c
  {
    if Bare(c) {
      LabelValueBare(CustomerWord, c);
    }
    CustomerLineClass(c);
    StepTaken(info, Labelled(CustomerWord, c), Customer, Some(LabelValue(CustomerWord, c)));
  }

  /**
   * The stripped line `Address: a` goes to the address branch exactly when
   * `a` holds no order, date or customer keyword.
   */
  lemma {:induction false} AddressLineClass(a: string)
    ensures Classify(Strip(Labelled(AddressWord, a))) == Some(Address) <==> Avoids(a, Address)
  {
    LabelledClass(Address, a);
  }

  /**
   * The line `Address: a`, for an `a` holding no order, date or customer
   * keyword, stores the stripped text after its last colon as the address,
   * which for a bare `a` is `a` itself.
   */
  lemma {:induction false} AddressLineStep(info: TransferInfo, a: string)
    requires Avoids(a, Address)
    ensures Step(info, Labelled(AddressWord, a)) == info.(address := LabelValue(AddressWord, a))
    ensures Bare(a) ==> LabelValue(AddressWord, a) == a
  {
    if Bare(a) {
      LabelValueBare(AddressWord, a);
    }
    AddressLineClass(a);
    StepTaken(info, Labelled(AddressWord, a), Address, Some(LabelValue(AddressWord, a)));
  }

  /** Four lines joined by line breaks. */
  lemma {:induction false} JoinFour(l0: string, l1: string, l2: string, l3: string)
    ensures Join([l0, l1, l2, l3], '\n') == l0 + "\n" + l1 + "\n" + l2 + "\n" + l3
  {
    var lines := [l0, l1, l2, l3];
    assert Join(lines[3..], '\n') == l3;
    assert Join(lines[2..], '\n') == l2 + "\n" + l3;
    assert Join(lines[1..], '\n') == l1 + "\n" + l2 + "\n" + l3;
  }

  /** The document's text splits into its four lines. */
  lemma {:induction false} DocumentLines(n: string, d: string, c: string, a: string)
    requires AllDigits(n) && |d| == 10 && DateAt(d, 0) && '\n' !in c && '\n' !in a
    ensures Split(Document(n, d, c, a), '\n')
            == [Labelled(OrderWord, n), Labelled(DateWord, d), Labelled(CustomerWord, c), Labelled(AddressWord, a)]
  {
    var lines := [Labelled(OrderWord, n), Labelled(DateWord, d), Labelled(CustomerWord, c), Labelled(AddressWord, a)];
    JoinFour(lines[0], lines[1], lines[2], lines[3]);
    assert '\n' !in n by {
      assert forall k :: 0 <= k < |n| ==> n[k] != '\n';
    }
    assert '\n' !in d by {
      DateCharacters(d);
    }
    forall l | l in lines ensures '\n' !in l {
    }
    SplitJoin(lines, '\n');
  }

  /** Four writes are performed one after the other, starting from the blank record. */
  lemma {:induction false} ReplayFour(w0: Write, w1: Write, w2: Write, w3: Write)
    ensures Replay([w0, w1, w2, w3]) == Apply(Apply(Apply(Apply(Blank, w0), w1), w2), w3)
  {
    assert [w0][..0] == [];
    assert Replay([w0]) == Apply(Blank, w0);
    assert [w0, w1][..1] == [w0];
    assert Replay([w0, w1]) == Apply(Replay([w0]), w1);
    assert [w0, w1, w2][..2] == [w0, w1];
    assert Replay([w0, w1, w2]) == Apply(Replay([w0, w1]), w2);
    assert [w0, w1, w2, w3][..3] == [w0, w1, w2];
  }

  /** Mapping over four elements gives the four images, in order. */
  lemma {:induction false} MapSeqFour<A, B>(f: A -> B, a0: A, a1: A, a2: A, a3: A)
    ensures MapSeq(f, [a0, a1, a2, a3]) == [f(a0), f(a1), f(a2), f(a3)]
  {
  }

  /** Four lines are read one after the other, starting from the blank record. */
  lemma {:induction false} ParseFourLines(l0: string, l1: string, l2: string, l3: string)
    ensures ParseLines([l0, l1, l2, l3]) == Step(Step(Step(Step(Blank, l0), l1), l2), l3)
  {
    ParseLinesIsReplay([l0, l1, l2, l3]);
    MapSeqFour(LineWrite, l0, l1, l2, l3);
    ReplayFour(LineWrite(l0), LineWrite(l1), LineWrite(l2), LineWrite(l3));
  }

  /**
   * A document of four labelled lines parses to its four values: an order
   * number of digits, a date of either form, and customer and address
   * values that hold no keyword of an earlier branch are read back as the
   * stripped text after their last colon, which for bare values is the
   * values themselves.
   */
  lemma {:induction false} DocumentParses(n: string, d: string, c: string, a: string)
    requires AllDigits(n)
    requires |d| == 10 && DateAt(d, 0)
    requires '\n' !in c && Avoids(c, Customer)
    requires '\n' !in a && Avoids(a, Address)
    ensures Parse(Document(n, d, c, a))
            == TransferInfo(n, d, LabelValue(CustomerWord, c), LabelValue(AddressWord, a), [])
    ensures Bare(c) && Bare(a) ==> Parse(Document(n, d, c, a)) == TransferInfo(n, d, c, a, [])
  {
    DocumentLines(n, d, c, a);
    var l0, l1, l2, l3 := Labelled(OrderWord, n), Labelled(DateWord, d), Labelled(CustomerWord, c), Labelled(AddressWord, a);
    ParseFourLines(l0, l1, l2, l3);
    var i1 := Blank.(orderNumber := n);
    var i2 := i1.(date := d);
    var i3 := i2.(customer := LabelValue(CustomerWord, c));
    OrderLineStep(Blank, n);
    DateLineStep(i1, d);
    CustomerLineStep(i2, c);
    AddressLineStep(i3, a);
  }

  /**
   * An upload whose text is such a document fills the row with its four
   * values, the two parameters, "Pending" and the time, and puts the order
   * number in the subject.
   */
  lemma {:induction false} DocumentSubmits(filename: string, pdf: PdfReading, image: ImageReading,
                                           username: string, email: string, trayType: string,
                                           quantity: string, timestamp: string,
                                           n: string, d: string, c: string, a: string)
    requires AllDigits(n)
    requires |d| == 10 && DateAt(d, 0)
    requires '\n' !in c && Avoids(c, Customer)
    requires '\n' !in a && Avoids(a, Address)
    requires LoadText(filename, pdf, image) == Document(n, d, c, a)
    ensures var s := Process(filename, pdf, image, username, email, trayType, quantity, timestamp);
            && s.table.row == [n, d, LabelValue(CustomerWord, c), LabelValue(AddressWord, a),
                               username, trayType, quantity, "Pending", timestamp]
            && s.subject == "Transfer Order - " + n
    ensures Bare(c) && Bare(a) ==>
              Process(filename, pdf, image, username, email, trayType, quantity, timestamp).table.row
              == [n, d, c, a, username, trayType, quantity, "Pending", timestamp]
  {
    DocumentParses(n, d, c, a);
  }

}
