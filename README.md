# Transfer-order upload pipeline, modelled in Dafny

A model of the decision logic of `app.py`, a small Flask service. A user
uploads a PDF or an image of a transfer order. The service extracts its
text and parses four fields out of it: order number, date, customer and
address. It builds a one-row spreadsheet and mails that spreadsheet with a
subject line and a plain-text body. The model keeps everything that is
computation on strings and sequences, and turns the third-party readers,
the clock, the spreadsheet writer and the mail transport into parameters
or leaves them out.

Modules, one per concern:

- `Options`: the Option datatype.
- `Strings`: the Python string operations the parser relies on:
  - `str.strip` with the full `str.isspace` set;
  - `str.split` with a one-character separator;
  - `sub in s`;
  - `str.lower`;
  - `str.endswith`.
- `Loader`: the readers' outcomes, the page-concatenation loop of
  `extract_text_from_pdf`, the first-payload rule of
  `extract_text_from_image` and the `.pdf` dispatch.
- `Parser`: `parse_transfer_info`. It is a method with the source's `for`
  loop and `if`/`elif` chain, proved equal to a fold (`ParseLines`) of a
  one-line step (`Step`). The lemmas state what the fold does.
- `Sheet`: the one-row table of `update_excel`.
- `Notice`: the mail subject and body.
- `Upload`: the `process` handler from extraction to the message, and what
  it produces for empty text and for a well-formed four-line document.

Three behaviours of the code a reader might not expect:

- **A later line overwrites an earlier one.** Every branch assigns its
  field outright, so the record holds what the *last* line taken by that
  branch wrote (`Parser.LastWriteWins`). It is not the first occurrence.
  The customer and address branches write even when the value is `""`.
- **The date is whichever form starts first.** The date pattern is a single
  alternation. The search therefore returns the ten characters at the
  leftmost position where *either* form matches. It does not prefer
  `dddd-dd-dd` anywhere over `dd/dd/dddd`.
- **The `'N/A'` defaults never apply.** `parse_transfer_info` always sets
  all four keys, so the defaults in `process` are unreachable. An empty
  order number gives the subject `"Transfer Order - "`.

## Model

| member | source | states |
|---|---|---|
| Parser.Parse | app.py:65-96 | `parse_transfer_info` as a function: split the text on `\n` and read the lines in order from the blank record; the method `Parser.ParseTransferInfo` computes it, and the lemmas below state its properties |
| Parser.ParseLines | app.py:67-94 | the record after the loop has read a sequence of lines in order, starting from the record of four `""` fields and no items |
| Parser.Step | app.py:78-94 | the record after the loop body reads one more line: the line's write, if any, applied to the record so far |
| Parser.LineWrite | app.py:78-94 | the loop body for one raw line: strip it, find the branch that takes it, and give the field and value that branch assigns, or nothing when no branch takes the line or the taken branch's search finds nothing |
| Parser.Classify | app.py:79-94 | the `if`/`elif` chain: the first of the order, date, customer and address tests whose English or Chinese keyword is a substring of the stripped line, or none |
| Parser.ParseTransferInfo | app.py:65-96 | the loop over the split lines, with the `if`/`elif` chain over the stripped line, returns exactly the fold `Parse(text)` of one step per line from the blank record |
| Parser.ItemsAlwaysEmpty | app.py:67-73 | `items` is the empty list after any number of lines |
| Parser.NoKeywordsGiveBlank | app.py:67-96 | text in which no line holds any of the eight keywords parses to the record with all four fields `""` and no items |
| Parser.NeverWritten | app.py:67-96 | a field that no line writes keeps its default `""` |
| Parser.LastWriteWins | app.py:77-94 | a field holds the value written by the last line that writes it, whatever the earlier lines wrote |
| Parser.ParseLinesIsReplay | app.py:77-94 | reading the lines is performing, in order, the one write each line makes |
| Parser.StepEffect | app.py:79-94 | a line changes at most the one field its branch writes, to that value, and never `items` |
| Parser.ApplyEffect | app.py:83-94 | the assignment a branch makes changes only the field it names |
| Parser.WrittenByBranch | app.py:79-94 | a line writes field `f` only if the branch of `f` is the one that takes the stripped line, and then writes that branch's value |
| Parser.OneFieldPerLine | app.py:79-94 | no line writes two fields |
| Parser.ClassifyIsFirstKeyword | app.py:79-94 | a line goes to the branch of `f` exactly when it holds one of `f`'s two keywords and no keyword of an earlier branch |
| Parser.OrderBranch | app.py:79 | a line holding `Order` or `订单` goes to the order-number branch |
| Parser.DateBranch | app.py:84 | a line holding `Date` or `日期` and no order keyword goes to the date branch |
| Parser.CustomerBranch | app.py:89 | a line holding a customer keyword and no earlier keyword goes to the customer branch |
| Parser.AddressBranch | app.py:92 | a line holding an address keyword and no earlier keyword goes to the address branch |
| Parser.NoBranch | app.py:79-94 | a line with none of the eight keywords goes to no branch |
| Parser.StepTaken | app.py:80-94 | once a branch is taken, the step writes what that branch found, or leaves the record as it was when it found nothing |
| Parser.OrderOutranksDate | app.py:79-88 | a line `Order yyyy-mm-dd…` holds a date the date search would find, yet it goes to the order branch, which stores the year and leaves the date unchanged |
| Parser.OrderDateLineSearches | app.py:81-86 | on such a line the date search finds the whole date and the number search finds only its year |
| Parser.OrderDateLineTaken | app.py:78-79 | such a line is unchanged by stripping and is taken by the order branch |
| Parser.DateAndYear | app.py:81-86 | after a stretch without digits, an ISO date is what the date search finds and its year is what the number search finds |
| Parser.YearAfterNonDigits | app.py:81 | the digit search stops at the first `-` of an ISO date |
| Parser.IsoDateAt | app.py:86 | the first alternative of the date pattern, four digits, `-`, two digits, `-`, two digits, matches at position `i` |
| Parser.SlashDateAt | app.py:86 | the second alternative, two digits, `/`, two digits, `/`, four digits, matches at position `i` |
| Parser.DateAt | app.py:86 | either alternative of the date pattern matches at position `i` |
| Parser.SearchDigits | app.py:81-83 | `\d+` search: nothing exactly when the line holds no digit; otherwise the leftmost run of digits, taken as far as it goes |
| Parser.DigitsAfterNonDigits | app.py:81 | a run of digits that follows a stretch without digits, and is ended by a non-digit or the end of the line, is what the number search returns |
| Parser.SearchDate | app.py:86-88 | date search: nothing exactly when neither form matches anywhere; otherwise the ten characters at the leftmost position where either form matches, which themselves have one of the forms |
| Parser.DateAfterNonDigits | app.py:86 | a date that follows a stretch without digits is what the date search returns |
| Parser.FirstDigit | app.py:81 | the first digit at or after a position, with none before it |
| Parser.DigitRunEnd | app.py:81 | the end of a maximal run of digits |
| Parser.FirstDate | app.py:86 | the first position at or after a start where a date form matches, with none before it |
| Parser.AfterColon | app.py:91-94 | the value is the stripped text after the last `:`, holds no `:`, and is the whole stripped line when the line has no `:` |
| Parser.BranchValue | app.py:81-94 | an order number found is non-empty digits; a date found has one of the two forms; customer and address always yield a value without `:` |
| Parser.StripKeepsNoKeyword | app.py:78 | stripping cannot create a keyword |
| Parser.ParseLinesSnoc | app.py:77 | reading one more line is one more step |
| Parser.Writes | app.py:77-94 | one write per line, the `j`-th being the write the `j`-th line makes |
| Parser.ReplayMisses | app.py:77-94 | writes to other fields leave a field as the earlier writes left it |
| Parser.ReplayLastWrite | app.py:77-94 | a field holds what the last write to it stored |
| Strings.Split | app.py:76 | `split('\n')`: at least one piece, no piece holds the separator, and joining the pieces with it gives the text back |
| Strings.SplitJoin | app.py:76 | splitting what was joined gives the same pieces |
| Strings.SplitNoSeparator | app.py:76 | a string without the separator splits into itself alone |
| Strings.IsSpace | app.py:78 | `str.isspace` on one character: the whitespace set `strip()` removes, including the Unicode separators |
| Strings.Strip | app.py:78 | `strip()`: a run of the string with only whitespace around it, neither starting nor ending with whitespace |
| Strings.TrimStart | app.py:78 | the suffix left once leading whitespace is removed |
| Strings.TrimEnd | app.py:78 | the prefix left once trailing whitespace is removed |
| Strings.StripIdempotent | app.py:78 | stripping twice is stripping once |
| Strings.StripUnchanged | app.py:78 | a string that starts and ends with a non-space is its own strip |
| Strings.StripKeepsMissing | app.py:78-92 | a substring the raw line lacks, the stripped line lacks too |
| Strings.StripKeepsCharacters | app.py:78-91 | stripping adds no character |
| Strings.Contains | app.py:79-92 | Python's `sub in s`, tried at each starting position in turn |
| Strings.ContainsIff | app.py:79-92 | `sub in s` holds exactly when `sub` occurs at some position of `s` |
| Strings.MissingFirstChar | app.py:79-92 | a string lacking the first character of `sub` does not contain `sub` |
| Strings.PrefixAddsNone | app.py:79-92 | a prefix lacking the first character of `sub` adds no occurrence of `sub`: `sub in a + c` implies `sub in c` |
| Strings.AfterLast | app.py:91-94 | `split(':')[-1]`: a suffix without `:`, preceded by `:` when the string has one, and the whole string otherwise |
| Strings.EndsWith | app.py:204 | `s.endswith(suffix)`: `s` is at least as long as `suffix` and its last characters are `suffix` |
| Strings.Lower | app.py:204 | `lower()` maps each character on its own; in the model, where only ASCII letters change, the length is kept |
| Loader.PageText | app.py:59 | a page's `extract_text() or ""`: a page without text contributes `""` |
| Loader.ConcatPages | app.py:56-60 | the pages' texts concatenated in page order |
| Loader.PdfText | app.py:53-63 | what `extract_text_from_pdf` returns: that concatenation, or `""` when the reader raises |
| Loader.IsPdfName | app.py:204 | `filename.lower().endswith('.pdf')` |
| Loader.LoadText | app.py:203-207 | the text of the upload: the PDF extractor's for a name the `.pdf` test accepts, the image extractor's otherwise |
| Loader.ExtractTextFromPdf | app.py:53-63 | the loop that appends each page's text returns the in-order concatenation of the pages, or `""` when the reader fails |
| Loader.PageInPlace | app.py:58-59 | each page's text sits between the texts of the pages before and after it |
| Loader.ConcatPagesAppend | app.py:58-59 | concatenating two runs of pages concatenates their texts |
| Loader.ConcatPagesLength | app.py:58-59 | the text's length is the sum of the pages' lengths, with a page without text counting 0 |
| Loader.ImageText | app.py:36-51 | the first decoded payload when there is one; `""` when there is none or when reading fails |
| Loader.IsPdfNameIff | app.py:204-207 | the PDF reader is chosen exactly for names ending in `.pdf` in any mix of letter case |
| Sheet.BuildTable | app.py:101-111 | the table `update_excel` hands to pandas: the nine column names in the order of its dictionary, over one row of the four parsed fields, the user name, tray type, quantity, `Pending` and the timestamp |
| Sheet.TableShape | app.py:101-111 | nine columns in the fixed order and one cell under each |
| Sheet.TableReadsBack | app.py:101-111 | reading the row by column name gives the four parsed fields, user name, tray type, quantity, `Pending` and the timestamp, and nothing under any other name |
| Sheet.ColumnsDistinct | app.py:101-111 | no column name appears twice |
| Sheet.IndexOf | app.py:101-111 | the first position of a name in the header, or none when it is absent |
| Sheet.IndexOfDistinct | app.py:101-111 | in a header without repeats, each name is found at its own position |
| Sheet.CellOfColumn | app.py:101-111 | the cell read under column `k`'s name is the row's `k`-th cell |
| Sheet.CellMissing | app.py:101-111 | a name not in the header reads as no cell |
| Notice.Subject | app.py:216 | the subject line: `Transfer Order - ` followed by the order number, with no `N/A` fallback because the parser always sets that key |
| Notice.Body | app.py:217-226 | the body f-string with the source's line breaks and four-space indentation: a leading line break, the submitter line, an indented empty line, the six `name: value` lines and a closing indent |
| Notice.SubjectRoundTrip | app.py:216 | the subject is the prefix followed by the order number unchanged, and just the prefix for an empty order number |
| Notice.BodyListsFields | app.py:217-226 | the body holds a line `name: value` for each of the four fields, the tray type and the quantity |
| Notice.SixPartsContained | app.py:217-226 | each of the six consecutive field lines occurs in the body |
| Upload.Process | app.py:202-226 | `process` from the saved upload to the message: the text the name's extractor yields, the record parsed from it, the table built from the record and the parameters, and the subject and body |
| Upload.EmptyTextGivesBlank | app.py:65-96 | empty text parses to the blank record |
| Upload.EmptyTextStillSubmits | app.py:203-216 | an upload that yields no text still gives a row of four empty cells, the parameters, `Pending` and the time, and the bare subject prefix |
| Upload.UnreadableGivesNoText | app.py:36-63 | a failed read, or an image with no code, yields empty text on the path the file name selects |
| Upload.DocumentParses | app.py:76-94 | a document of four lines, `Order: n`, `Date: d`, `Customer: c` and `Address: a`, parses to `n`, `d` and the stripped text after the last colon of the customer and address lines, where `n` is digits, `d` has a date form, `c` and `a` hold no line break and no keyword of an earlier branch; for `c` and `a` with no colon and no surrounding whitespace those texts are `c` and `a` |
| Upload.DocumentSubmits | app.py:203-216 | an upload whose text is such a document gives the row of those four values, the parameters, `Pending` and the time, and the subject `Transfer Order - n`; the row starts `n, d, c, a` for `c` and `a` with no colon and no surrounding whitespace |
| Upload.DocumentLines | app.py:76 | such a document splits into its four lines |
| Upload.ParseFourLines | app.py:77-94 | four lines are read one after the other from the blank record |
| Upload.ReplayFour | app.py:77-94 | four writes are performed one after the other from the blank record |
| Upload.OrderLineStep | app.py:79-83 | for `n` a non-empty run of digits, the line `Order: n` stores `n` as the order number and changes nothing else |
| Upload.DateLineStep | app.py:84-88 | for `d` of either date form, the line `Date: d` stores `d` as the date and changes nothing else |
| Upload.CustomerLineClass | app.py:78-89 | the stripped line `Customer: c` goes to the customer branch exactly when `c` holds no order or date keyword, in either language |
| Upload.CustomerLineStep | app.py:78-91 | the line `Customer: c`, for a `c` holding no order or date keyword, stores the stripped text after its last colon as the customer and changes nothing else; for a `c` with no colon and no surrounding whitespace that is `c` |
| Upload.AddressLineClass | app.py:78-92 | the stripped line `Address: a` goes to the address branch exactly when `a` holds no order, date or customer keyword, in either language |
| Upload.AddressLineStep | app.py:78-94 | the line `Address: a`, for an `a` holding no order, date or customer keyword, stores the stripped text after its last colon as the address and changes nothing else; for an `a` with no colon and no surrounding whitespace that is `a` |
| Upload.LabelledClass | app.py:78-94 | the stripped line `w: v`, with `w` a branch's first keyword, goes to that branch exactly when `v` holds no keyword of an earlier branch |
| Upload.LabelledKeywordFromValue | app.py:78-92 | a keyword whose first character is not in `w: ` is in the stripped line `w: v` only if it is in `v` |
| Upload.LabelledKeywordToLine | app.py:78-92 | a keyword that ends in a printing character and is in `v` is in the stripped line `w: v` too |
| Upload.StripLabelled | app.py:78 | stripping `w: v` removes only trailing whitespace and keeps `w:` at the front |
| Upload.LabelValueBare | app.py:91-94 | a value with no colon, no line break and no surrounding whitespace is read back from its labelled line unchanged |
| Upload.StepOfLine | app.py:79-94 | a stripped line taken by a branch with a value writes that value into the branch's field |
| Upload.LabelledAfterColon | app.py:91-94 | for a `word` without `:` and a bare `v` (non-empty, no colon, no line break, no whitespace at either end), the value after `word: ` is read back unchanged |
| Upload.AfterOneColon | app.py:91-94 | with a single colon, the value is the stripped text after it |
| Upload.LabelledStripped | app.py:78 | a labelled line with printing ends is its own strip |
| Upload.StripLeadingSpace | app.py:78-91 | stripping removes the one space after the colon |
| Upload.NoFirstCharNoKeyword | app.py:79-92 | a line lacking both keywords' first characters holds neither keyword |
| Upload.DateCharacters | app.py:86 | a date consists of digits, `-` and `/` |

## Left out

- Flask routes, the session, the login check and `flash` messages (app.py:153-247), including the `logout` route and `app.run`. These are request plumbing over a fixed dictionary of users. The early returns of `process` for a missing file or missing form fields are part of this.
- The PDF and image readers (pdfplumber, PIL and pyzbar) and UTF-8 decoding. What they yield for an upload is a parameter (`PdfReading`, `ImageReading`), and any exception they raise is the `Unreadable` case. The error messages the `except` branches print (app.py:50, app.py:62, app.py:150) are left out with them.
- Writing the table to an `.xlsx` file, `tempfile`, saving the upload, and `os.unlink`. These are file I/O. In the source, if `update_excel` raises (app.py:213), neither the upload's temporary file nor an `.xlsx` file it already created is removed; the model does not capture this.
- `send_email_with_attachment`: MIME assembly, base64 and the SMTP session. These are network I/O. The model builds the subject and body it is given, and does not model whether the send succeeds.
- `datetime.now().strftime(...)`. The timestamp is a parameter.
- `Parser.SearchDigits`, `Parser.SearchDate`: `\d` is modelled as the ASCII digits. Python's `\d` also matches other Unicode decimal digits.
- `Strings.Lower`: only `A`-`Z` are lowered. Python's `str.lower` also lowers non-ASCII letters, and for some of them it lengthens the string (`'İ'.lower()` is two code points). This affects only the `.pdf` test. By the Unicode case tables no non-ASCII character lowers to `.`, `p`, `d` or `f`, so the test's outcome is the same.
- `info.get(key, default)`: modelled as a plain field read, because every key is always present.
