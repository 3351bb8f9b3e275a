# One-Book-Ledger ingestion core in Dafny

One-Book-Ledger turns the bills exported by two mobile wallets (Alipay,
WeChat Pay) and two banks (China CITIC Bank, Shanghai Pudong Development
Bank) into ledger items under one set of Chinese field names. This project
models that ingestion and normalisation core and proves what it promises.

The core has four parts:

- **Field parsers** (`one_book_ledger/utils/utils.py`,
  `one_book_ledger/bill_parser/field_convert.py`):
  - the transaction classifier, a first-match-wins cascade of prefix rules
    over the lower-cased summary (`classifier.dfy`);
  - the four-stage amount parser and the date parser (`ledger_utils.dfy`);
  - the date, sign and direction converters (`field_convert.dfy`).
- **The dict-based row extractors**, each a method with loops proved
  equal to a pure function of its input:
  - `parse_xls_bill` (`ledger_utils.dfy`);
  - `parse_csv_bill` (`csv_bill_parser.dfy`);
  - the SPDB sheet parser (`spdb_parser.dfy`);
  - the Alipay item assembly (`alipay_parser.dfy`).
- **The DataFrame path**:
  - `transform_dataframe` and `add_constant_column` as a `Frame` class
    whose methods update its columns in place (`frames.dfy`);
  - `parse`, which dispatches on the file extension (`common_parser.dfy`);
  - the CITIC adapter with its dash-splitting helpers
    (`zhongxin_parser.dfy`);
  - the WeChat adapter with its refund-status normaliser and its in-place
    fix-up of '已存入零钱' rows (`wechat_parser.dfy`).
- **The stored-file name** of the upload handler (`upload_handler.dfy`).

Supporting modules model the Python behaviour the code relies on:
- `values.dfy`: cells, truthiness, `or`, `dict.get`, `list.index`;
- `text.dfy`: `str.lower`, `str.split`, `str.replace`, `str.isspace`;
- `numbers.dfy`: `float()` and `'{:.2f}'`;
- `datetimes.dfy`: `strptime` and `strftime` for the layouts in use;
- `paths.dfy`: `os.path.splitext`.

Cells are a small datatype: `Nil` for None, `NaN` for the missing-value
marker pandas puts in empty cells, `Str`, `Num` (an exact real) and `Stamp`.
An exception that escapes a function is the `Raise` case of `Raising`. A
`try`/`except` that turns an exception into None, or into a skipped row,
appears as the matching `Option` or as `Wrappers.Kept`. File readers are
oracles passed in as parameters: `csv.DictReader`, the openpyxl sheet,
`pd.read_csv` and `pd.read_excel`. The clock read by the upload handler is
a parameter too.

Where the repository's design notes and its code disagree, the model
follows the code:

- The classifier cascade has 26 rules, not 24.
- The cascade does not always put the narrower category first:
  - text starting '支付' is decided by the financial-services rule before
    the payment rule is reached;
  - text starting '超市' is decided by the shopping rule before the
    supermarket rule.
- `parse_csv_bill` unpacks its `{CSV column: field}` mapping as
  `(field, column)`, so only identity entries copy data. The Alipay adapter
  therefore never sees '日期' or '交易摘要'.
  `tests/test_bill_parser/test_alipay_parser.py:37-46` expects otherwise.
- The two sign conventions disagree:
  - SPDB labels a negative amount '支出' and everything else '收入';
  - `get_income_or_expense` labels a positive amount '支出'.
- A compact date need not have eight characters: `strptime` reads
  '2025011' under '%Y%m%d' as 2025-01-01, since '%m' and '%d' also accept
  a single digit.
- `standardize_transaction_type('消费')` is the shopping category, because
  the shopping rule lists '消费'.
- An exception can escape: `parse_wechat_csv` raises when `parse` gives
  None, because nothing guards the `df.loc` writes.

## Model

| member | source | states |
|---|---|---|
| Values.Or | one_book_ledger/bill_parser/alipay_parser.py:59-61 | `a or b` is `a` when `a` is truthy and `b` otherwise |
| Values.Get | one_book_ledger/bill_parser/alipay_parser.py:57-67 | `item.get(key, default)` is the stored value for a present key and the default for an absent one |
| Values.IndexOf | one_book_ledger/utils/utils.py:270 | `list.index` gives None exactly when the value is absent; otherwise it gives the first position holding the value |
| Text.Lower | one_book_ledger/utils/utils.py:57 | lower-casing keeps the length, maps each character independently, and leaves no capital letter |
| Text.RemoveChar | one_book_ledger/utils/utils.py:186 | `replace(',', '')` removes every comma and keeps every other character; text without commas is unchanged |
| Text.Split | one_book_ledger/bill_parser/zhongxin_parser.py:17 | `str.split(sep)` gives at least one part and no part contains the separator |
| Text.JoinSplit | one_book_ledger/bill_parser/zhongxin_parser.py:17 | joining the parts of a split with the separator gives the text back |
| Numbers.PrintParseLiteral | one_book_ledger/utils/utils.py:181 | a text accepted by the numeric-literal grammar is printed back exactly |
| Numbers.ParseLiteralPrint | one_book_ledger/utils/utils.py:181 | every well-formed literal is read back as itself |
| Numbers.Strip | one_book_ledger/utils/utils.py:181 | the text `float()` parses has no leading or trailing blank, and text without them is unchanged |
| Numbers.StripChars | one_book_ledger/utils/utils.py:181 | stripping drops only blanks |
| Numbers.FloatPrint | one_book_ledger/utils/utils.py:181 | `float()` of a printed literal is its value |
| Numbers.FloatAccepts | one_book_ledger/utils/utils.py:181 | text `float()` accepts holds only sign, digit, point and blank characters and at least one digit |
| Numbers.RoundHalfEven | one_book_ledger/bill_parser/field_convert.py:36 | rounding lands within half a unit of the value and breaks ties to the even neighbour |
| Numbers.FloatFormatCents | one_book_ledger/bill_parser/field_convert.py:36 | a two-decimal rendering of c hundredths reads back as c/100 |
| Numbers.Fixed2Cents | one_book_ledger/bill_parser/field_convert.py:36 | `'{:.2f}'` of an exact number of hundredths is that number's two-decimal rendering |
| DateTimes.Match | one_book_ledger/utils/utils.py:221 | the format's regex, with first-fit alternatives and backtracking, matches at least as many characters as its shortest reading and, without a whitespace directive, at most its longest, capturing one text per directive |
| DateTimes.MatchAlts | one_book_ledger/utils/utils.py:221 | a directive's alternatives are tried in order, each followed by the rest of the pattern, and the capture is the text the taken alternative spans |
| DateTimes.MatchBlanks | one_book_ledger/utils/utils.py:233 | `\s+` takes at least one whitespace character and the rest of the pattern follows it |
| DateTimes.Strptime | one_book_ledger/utils/utils.py:219-224 | any layout in use yields only valid date-times; a date-only layout gives midnight and a time-only one 1900-01-01; the text is at least the layout's shortest width and, without whitespace in the layout, at most its longest |
| DateTimes.LayoutWidths | one_book_ledger/utils/utils.py:219-224 | '%Y%m%d' reads 6 to 8 characters, '%H:%M:%S' 5 to 8, '%Y-%m-%d %H:%M:%S' at least 14, capturing three, three and six fields |
| DateTimes.ParseYmd | one_book_ledger/bill_parser/field_convert.py:16 | `strptime(s, '%Y%m%d')` yields only valid calendar dates, at midnight, from text of six to eight characters |
| DateTimes.ParseHms | one_book_ledger/bill_parser/field_convert.py:17 | `strptime(s, '%H:%M:%S')` yields only valid times on 1900-01-01, from text of five to eight characters |
| DateTimes.ParseIso | one_book_ledger/utils/utils.py:226-237 | `strptime(s, '%Y-%m-%d %H:%M:%S')` yields only valid date-times, from text of at least fourteen characters |
| DateTimes.ReadsEightDigits | one_book_ledger/bill_parser/field_convert.py:16 | eight digits whose middle pair is a month and last pair a day number are read as that date exactly when it exists |
| DateTimes.ReadsSevenDigits | one_book_ledger/bill_parser/field_convert.py:16 | seven digits 'YYYY0MD' are read as day D of month M, so '2025011' is 2025-01-01 |
| DateTimes.MonthPastTwelve | one_book_ledger/bill_parser/field_convert.py:16 | eight digits whose month pair is 13 to 19 are refused, because '%m' takes only the '1' and text is left over |
| DateTimes.ReadsIso | one_book_ledger/utils/utils.py:228-233 | text holding the characters of a date-time written '%Y-%m-%d %H:%M:%S' is read as that date-time |
| DateTimes.FormatYmd | one_book_ledger/bill_parser/field_convert.py:16 | `strftime('%Y%m%d')` is 8 characters |
| DateTimes.FormatHms | one_book_ledger/bill_parser/field_convert.py:17 | `strftime('%H:%M:%S')` is 8 characters |
| DateTimes.FormatIso | one_book_ledger/bill_parser/field_convert.py:19 | `strftime('%Y-%m-%d %H:%M:%S')` is 19 characters |
| DateTimes.FormatStamp | one_book_ledger/upload_handler.py:13 | `strftime('%Y%m%d_%H%M%S')` is 15 characters |
| DateTimes.ParseIsoFormatIso | one_book_ledger/bill_parser/field_convert.py:19 | parsing the formatted date-time gives the same date-time back |
| DateTimes.ParseYmdFormatYmd | one_book_ledger/bill_parser/field_convert.py:16 | a midnight date survives formatting as YYYYMMDD and parsing back |
| DateTimes.ParseHmsFormatHms | one_book_ledger/bill_parser/field_convert.py:17 | a time survives formatting as HH:MM:SS and parsing back, on 1900-01-01 |
| Classifier.FitsEach | one_book_ledger/utils/utils.py:60-61 | an alternative fits exactly when every character agrees with the regex character at its position |
| Classifier.LiteralAltMatches | one_book_ledger/utils/utils.py:60-61 | an alternative without a wildcard matches exactly the texts it begins |
| Classifier.AnyAltMatchesIff | one_book_ledger/utils/utils.py:60-61 | an anchored group of alternatives matches exactly when one of its alternatives matches |
| Classifier.ClassifyWith | one_book_ledger/utils/utils.py:60-163 | a cascade returns UNKNOWN or the category of one of its rules |
| Classifier.ClassifyWithUnknown | one_book_ledger/utils/utils.py:60-163 | a cascade returns UNKNOWN exactly when no rule matches |
| Classifier.ClassifyWithFirstMatch | one_book_ledger/utils/utils.py:60-163 | any other result is the category of a matching rule whose predecessors all fail |
| Classifier.ClassifyWithNoLaterThan | one_book_ledger/utils/utils.py:60-163 | once rule k matches, the result comes from rule k or an earlier rule |
| Classifier.TableCategories | one_book_ledger/utils/utils.py:60-160 | the table has 26 rules and none yields UNKNOWN, WITHDRAWAL or OTHERS |
| Classifier.Classify | one_book_ledger/utils/utils.py:57-163 | the category is UNKNOWN or a rule's category, and never WITHDRAWAL or OTHERS |
| Classifier.ClassifyUnknown | one_book_ledger/utils/utils.py:57-163 | UNKNOWN exactly when no rule matches the lower-cased summary |
| Classifier.ClassifyFirstMatch | one_book_ledger/utils/utils.py:57-163 | any other category is that of the first rule matching the lower-cased summary |
| Classifier.LabelOfUnknown | one_book_ledger/utils/utils.py:13-43 | only UNKNOWN is labelled '未知类型' |
| Classifier.LabelNotProduced | one_book_ledger/utils/utils.py:13-43 | no member other than WITHDRAWAL and OTHERS carries the labels '提现' and '其他' |
| Classifier.StandardizeTransactionType | one_book_ledger/utils/utils.py:47-163 | the label is '未知类型' exactly when no rule matches, and is never '提现' or '其他' |
| Classifier.ClassifyNoLaterThan | one_book_ledger/utils/utils.py:60-163 | a summary matching rule k is classified by rule k or an earlier one |
| Classifier.RuleMatchesAt | one_book_ledger/utils/utils.py:60-61 | a summary beginning with a lower-case, wildcard-free alternative of a rule satisfies that rule |
| Classifier.ClassifyCaseInsensitive | one_book_ledger/utils/utils.py:57 | classification ignores ASCII letter case |
| Classifier.UpperCaseAlternativeDead | one_book_ledger/utils/utils.py:72 | the alternative 'KTV' never matches the lower-cased summary |
| Classifier.ShadowingOrder | one_book_ledger/utils/utils.py:60-160 | PAYMENT comes after the first 16 rules, SUPERMARKET after the first 3, and DINING is first |
| Classifier.FinanceListsPay | one_book_ledger/utils/utils.py:120 | the financial-services rule lists '支付' |
| Classifier.ShoppingListsSupermarketWord | one_book_ledger/utils/utils.py:68 | the shopping rule lists '超市' |
| Classifier.DiningListsKfc | one_book_ledger/utils/utils.py:60 | the dining rule lists '肯德基' |
| Classifier.PaymentShadowedByFinance | one_book_ledger/utils/utils.py:60-149 | a summary starting '支付' is FINANCIAL_SERVICES, labelled '金融服务', so the PAYMENT alternative '支付' is dead |
| Classifier.SupermarketShadowedByShopping | one_book_ledger/utils/utils.py:60-81 | a summary starting '超市' is SHOPPING, labelled '购物消费', so the SUPERMARKET alternative '超市' is dead |
| Classifier.EmptySummaryUnknown | one_book_ledger/utils/utils.py:57-163 | the empty summary matches no rule: it is UNKNOWN, labelled '未知类型' |
| Classifier.ClassifyWithDecides | one_book_ledger/utils/utils.py:60-163 | a rule that matches after all earlier rules fail decides the cascade's result |
| Classifier.ClassifyDecides | one_book_ledger/utils/utils.py:57-163 | a rule that matches the lower-cased summary after all earlier rules fail decides its category |
| Classifier.NoneBeginsFails | one_book_ledger/utils/utils.py:60-61 | an anchored group whose alternatives are non-empty, wildcard-free at the start and avoid some first characters matches neither the empty text nor a text starting with one of them |
| Classifier.NoneBeginsFewer | one_book_ledger/utils/utils.py:60-61 | avoiding a set of first characters avoids any subset of them |
| Classifier.DiningHeads | one_book_ledger/utils/utils.py:60 | no dining alternative is empty or begins with the wildcard, '支' or '超' |
| Classifier.DiningHeadsLow | one_book_ledger/utils/utils.py:60 | the first 25 dining alternatives are non-empty and begin with none of the wildcard, '支' and '超' |
| Classifier.DiningHeadsHigh | one_book_ledger/utils/utils.py:60 | the last 25 dining alternatives are non-empty and begin with none of the wildcard, '支' and '超' |
| Classifier.TransportationHeads | one_book_ledger/utils/utils.py:64 | no transportation alternative is empty or begins with the wildcard, '支' or '超' |
| Classifier.ShoppingHeads | one_book_ledger/utils/utils.py:68 | no shopping alternative is empty or begins with the wildcard or '支' |
| Classifier.EntertainmentHeads | one_book_ledger/utils/utils.py:72 | no entertainment alternative is empty or begins with the wildcard or '支' |
| Classifier.DailyNecessitiesHeads | one_book_ledger/utils/utils.py:76 | no daily-necessities alternative is empty or begins with the wildcard or '支' |
| Classifier.SupermarketHeads | one_book_ledger/utils/utils.py:80 | no supermarket alternative is empty or begins with the wildcard or '支' |
| Classifier.GroceryHeads | one_book_ledger/utils/utils.py:84 | no grocery alternative is empty or begins with the wildcard or '支' |
| Classifier.DigitalProductsHeads | one_book_ledger/utils/utils.py:88 | no digital-products alternative is empty or begins with the wildcard or '支' |
| Classifier.ClothingHeads | one_book_ledger/utils/utils.py:92 | no clothing alternative is empty or begins with the wildcard or '支' |
| Classifier.BeautyCosmeticsHeads | one_book_ledger/utils/utils.py:96 | no beauty-cosmetics alternative is empty or begins with the wildcard or '支' |
| Classifier.BooksMediaHeads | one_book_ledger/utils/utils.py:100 | no books-media alternative is empty or begins with the wildcard or '支' |
| Classifier.TravelHeads | one_book_ledger/utils/utils.py:104 | no travel alternative is empty or begins with the wildcard or '支' |
| Classifier.HousingHeads | one_book_ledger/utils/utils.py:108 | no housing alternative is empty or begins with the wildcard or '支' |
| Classifier.UtilitiesHeads | one_book_ledger/utils/utils.py:112 | no utilities alternative is empty or begins with the wildcard or '支' |
| Classifier.TelecommunicationsHeads | one_book_ledger/utils/utils.py:116 | no telecommunications alternative is empty or begins with the wildcard or '支' |
| Classifier.FinancialServicesHeads | one_book_ledger/utils/utils.py:120 | no financial-services alternative is empty or begins with the wildcard |
| Classifier.SalaryHeads | one_book_ledger/utils/utils.py:124 | no salary alternative is empty or begins with the wildcard |
| Classifier.InvestmentIncomeHeads | one_book_ledger/utils/utils.py:128 | no investment-income alternative is empty or begins with the wildcard |
| Classifier.InterestHeads | one_book_ledger/utils/utils.py:132 | no interest alternative is empty or begins with the wildcard |
| Classifier.TaxRefundHeads | one_book_ledger/utils/utils.py:136 | no tax-refund alternative is empty or begins with the wildcard |
| Classifier.CreditCardRepaymentHeads | one_book_ledger/utils/utils.py:140 | no credit-card-repayment alternative is empty or begins with the wildcard |
| Classifier.CashWithdrawalHeads | one_book_ledger/utils/utils.py:144 | no cash-withdrawal alternative is empty or begins with the wildcard |
| Classifier.PaymentHeads | one_book_ledger/utils/utils.py:148 | no payment alternative is empty or begins with the wildcard |
| Classifier.TransferHeads | one_book_ledger/utils/utils.py:152 | no transfer alternative is empty or begins with the wildcard |
| Classifier.RechargeHeads | one_book_ledger/utils/utils.py:156 | no recharge alternative is empty or begins with the wildcard |
| Classifier.RefundHeads | one_book_ledger/utils/utils.py:160 | no refund alternative is empty or begins with the wildcard |
| Classifier.BeforeFinanceAvoidsPay | one_book_ledger/utils/utils.py:60-117 | none of the fifteen rules before FINANCIAL_SERVICES has an alternative beginning with '支', and neither of the two before SHOPPING one beginning with '超' |
| Classifier.RuleNonEmpty | one_book_ledger/utils/utils.py:60-161 | no rule has an empty alternative or one beginning with the wildcard |
| Classifier.BeforeFinanceFail | one_book_ledger/utils/utils.py:60-117 | a text starting with '支' fails the fifteen rules before FINANCIAL_SERVICES |
| Classifier.BeforeShoppingFail | one_book_ledger/utils/utils.py:60-65 | a text starting with '超' fails the dining and transportation rules |
| Classifier.ShoppingMatchesSupermarketWord | one_book_ledger/utils/utils.py:68 | the shopping rule matches a summary starting with '超市' |
| Classifier.DiningPrefix | one_book_ledger/utils/utils.py:60-61 | a summary starting '肯德基' is DINING whatever follows |
| Classifier.WildcardMatchesAnyCharacter | one_book_ledger/utils/utils.py:68 | ' jd.com ' matches any character except a newline in place of its '.' |
| LedgerUtils.StandardizeValue | one_book_ledger/bill_parser/spdb_parser.py:67-68 | classifying a cell raises exactly for a non-text cell; a text cell gets a label that is never '提现' or '其他', and is '未知类型' exactly when no rule matches |
| LedgerUtils.RunLength | one_book_ledger/utils/utils.py:191 | `[\d,\.]+` consumes the maximal run of digits, commas and points |
| LedgerUtils.CaptureAt | one_book_ledger/utils/utils.py:191 | a capture is a non-empty slice of the text at the given position |
| LedgerUtils.CaptureRun | one_book_ledger/utils/utils.py:191 | an optional minus followed by a maximal run is captured whole |
| LedgerUtils.SymbolSearch | one_book_ledger/utils/utils.py:191 | a capture after a currency symbol is non-empty and drawn from the text |
| Text.SpaceRun | one_book_ledger/utils/utils.py:196 | `\s*` consumes the maximal run of whitespace: every character it takes is whitespace and the next is not |
| Text.SpaceExact | one_book_ledger/utils/utils.py:196 | a run of whitespace followed by a non-whitespace character or the end is exactly what `\s*` takes |
| LedgerUtils.CnySpaces | one_book_ledger/utils/utils.py:196 | after 'CNY', `\s*` takes exactly the blanks before the signed amount |
| LedgerUtils.CnySearch | one_book_ledger/utils/utils.py:196 | a capture after 'CNY' is non-empty and drawn from the text |
| LedgerUtils.ParseAmountLiteral | one_book_ledger/utils/utils.py:181-182 | a plain decimal literal is parsed as its value |
| LedgerUtils.ParseAmountThousands | one_book_ledger/utils/utils.py:186-187 | text that becomes a literal once its commas are removed is parsed as that literal's value |
| LedgerUtils.FloatNoComma | one_book_ledger/utils/utils.py:181 | text the first stage accepts has no comma |
| LedgerUtils.NoDigitNoFloat | one_book_ledger/utils/utils.py:181 | text without a digit is rejected by `float()` |
| LedgerUtils.ParseAmountNoDigit | one_book_ledger/utils/utils.py:179-204 | text without a digit parses as 0.0 |
| LedgerUtils.ParseAmountNone | one_book_ledger/bill_parser/spdb_parser.py:74 | `parse_amount(str(None))` is 0.0 |
| LedgerUtils.ForeignCharNoFloat | one_book_ledger/utils/utils.py:181-187 | a character outside the numeric alphabet, other than a comma, defeats the first two stages |
| LedgerUtils.SymbolCaptureDecides | one_book_ledger/utils/utils.py:191-194 | after a currency symbol, the captured number decides the amount: 0.0 when the capture is not a number, with no fallback to 'CNY' |
| LedgerUtils.ParseAmountAfterSymbol | one_book_ledger/utils/utils.py:191-194 | '¥'/'￥'/'$' followed by a literal written with thousands separators parses as the literal's value |
| LedgerUtils.SymbolFirst | one_book_ledger/utils/utils.py:191 | a leading currency symbol is the leftmost match |
| LedgerUtils.ParseAmountByPattern | one_book_ledger/utils/utils.py:189-204 | when both numeric stages fail, the regex stages decide |
| LedgerUtils.NoSymbolFrom | one_book_ledger/utils/utils.py:191 | without a currency symbol the symbol search finds nothing |
| LedgerUtils.CnyFirst | one_book_ledger/utils/utils.py:196 | a leading 'CNY' followed by blanks is the leftmost match |
| LedgerUtils.CnyCaptureDecides | one_book_ledger/utils/utils.py:191-199 | 'CNY' in any case, blanks and a number decide the amount when no currency symbol occurs |
| LedgerUtils.CnySearchCapture | one_book_ledger/utils/utils.py:196 | the capture after 'CNY' and blanks is the signed run |
| LedgerUtils.AmountOf | one_book_ledger/bill_parser/spdb_parser.py:74 | `parse_amount(str(v))` is a number, or NaN exactly for a NaN cell |
| LedgerUtils.AmountOfNil | one_book_ledger/bill_parser/spdb_parser.py:74 | a None cell gives 0.0 |
| LedgerUtils.ParseDatetime | one_book_ledger/utils/utils.py:208-239 | a falsy value gives None; a date-time is returned unchanged; a truthy number or NaN raises; success is always a valid date-time |
| LedgerUtils.ParseDatetimeStrict | one_book_ledger/utils/utils.py:219-237 | text that does not raise and gives a date-time is 6 to 8 characters under '%Y%m%d', 5 to 8 under '%H:%M:%S', and at least 14 under '%Y-%m-%d %H:%M:%S' or without a format |
| LedgerUtils.ParseDatetimeDefault | one_book_ledger/utils/utils.py:226-239 | 'YYYY-MM-DD HH:MM:SS' text is read back without a format, and rejected under '%Y%m%d' |
| LedgerUtils.ParseDatetimeCompact | one_book_ledger/utils/utils.py:219-224 | YYYYMMDD text is read under '%Y%m%d' and rejected without a format |
| LedgerUtils.ColumnIndices | one_book_ledger/utils/utils.py:267-273 | the index map has exactly the mapping's field names as keys |
| LedgerUtils.ColumnIndicesLast | one_book_ledger/utils/utils.py:267-273 | a field's index is the header position of its column, None when the header lacks it |
| LedgerUtils.RowItem | one_book_ledger/utils/utils.py:283-287 | a row yields an item exactly when every found index is inside it; the item's keys are the found fields |
| LedgerUtils.BillRows | one_book_ledger/utils/utils.py:276-291 | no more items than rows |
| LedgerUtils.XlsBill | one_book_ledger/utils/utils.py:258-300 | None exactly for an unreadable file or an empty header; otherwise fewer items than sheet rows |
| LedgerUtils.ParseXlsBill | one_book_ledger/utils/utils.py:243-300 | the loops compute the item list of `XlsBill` |
| LedgerUtils.FillIndices | one_book_ledger/utils/utils.py:267-273 | the index loop computes `ColumnIndices` |
| LedgerUtils.FillItem | one_book_ledger/utils/utils.py:283-287 | the per-row loop computes `RowItem` |
| LedgerUtils.BillRowsFields | one_book_ledger/utils/utils.py:283-287 | every item carries exactly the fields whose columns were found |
| LedgerUtils.MissingColumnOmitted | one_book_ledger/utils/utils.py:267-287 | a mapped column missing from the header is absent from every item |
| LedgerUtils.ItemCell | one_book_ledger/utils/utils.py:283-287 | a found field holds the row's cell under the first header column of that name |
| LedgerUtils.BillRowsAllEmpty | one_book_ledger/utils/utils.py:280-281 | all-falsy rows give no items |
| LedgerUtils.BillRowsInOrder | one_book_ledger/utils/utils.py:276-291 | rows that are non-empty and wide enough give one item each, in order |
| FieldConvert.ConvertDateFormat | one_book_ledger/bill_parser/field_convert.py:3-21 | a result exists exactly when both date and time parse, and then reads back as their combination |
| FieldConvert.ParseHmsMidnight | one_book_ledger/bill_parser/field_convert.py:3 | the default time '00:00:00' parses as midnight |
| FieldConvert.ConvertDateFormatMidnight | one_book_ledger/bill_parser/field_convert.py:3-21 | with the default time, a valid YYYYMMDD becomes 'YYYY-MM-DD 00:00:00' and anything else None |
| FieldConvert.ConvertDateFormatRoundTrip | one_book_ledger/bill_parser/field_convert.py:16-19 | the date and time of any date-time convert to its 'YYYY-MM-DD HH:MM:SS' rendering |
| FieldConvert.ConvertDateFormatBadMonth | one_book_ledger/bill_parser/field_convert.py:16-21 | '20251305' gives None whatever the time: '%m' takes only the '1' and a character is left over |
| FieldConvert.ConvertDateFormatBadDay | one_book_ledger/bill_parser/field_convert.py:16-21 | '20250230' gives None whatever the time |
| FieldConvert.RemoveSign | one_book_ledger/bill_parser/field_convert.py:23-38 | a result exists exactly when `float()` accepts the text; it has no sign and reads as the magnitude rounded to hundredths |
| FieldConvert.Fixed2Reads | one_book_ledger/bill_parser/field_convert.py:36 | the two-decimal rendering of a non-negative number is unsigned and reads as its rounded value |
| FieldConvert.RemoveSignIdempotent | one_book_ledger/bill_parser/field_convert.py:35-36 | stripping the sign of its own result changes nothing |
| FieldConvert.RemoveSignCents | one_book_ledger/bill_parser/field_convert.py:35-36 | ±c hundredths become the two-decimal rendering of c |
| FieldConvert.RemoveSignZero | one_book_ledger/bill_parser/field_convert.py:35-36 | any spelling of zero, '-0' included, becomes '0.00' |
| FieldConvert.RemoveSignNoDigit | one_book_ledger/bill_parser/field_convert.py:37-38 | text without a digit, '' included, gives None |
| FieldConvert.Direction | one_book_ledger/bill_parser/field_convert.py:57-62 | '支出' exactly for positive amounts, '收入' for negative ones, '其他' for zero |
| FieldConvert.IncomeOrExpense | one_book_ledger/bill_parser/field_convert.py:40-64 | a direction exists exactly when `float()` accepts the text |
| FieldConvert.SignCarriedByDirection | one_book_ledger/bill_parser/field_convert.py:35-62 | the unsigned amount and the direction together give back the signed amount |
| FieldConvert.ConvertDateValue | one_book_ledger/bill_parser/zhongxin_parser.py:47 | a non-text cell raises; a text cell becomes None exactly when '%Y%m%d' cannot read it, and otherwise the day it reads written 'YYYY-MM-DD 00:00:00' |
| FieldConvert.RemoveSignValue | one_book_ledger/bill_parser/zhongxin_parser.py:51 | None and date cells raise; a number becomes its magnitude to two decimals; text goes through `remove_sign` |
| FieldConvert.IncomeOrExpenseValue | one_book_ledger/bill_parser/zhongxin_parser.py:52 | None and date cells raise; a number gets its direction; text goes through `get_income_or_expense` |
| CsvBillParser.SwappedItem | one_book_ledger/utils/csv_bill_parser.py:48-52 | the item's keys are the mapping keys whose paired value is a column of the row |
| CsvBillParser.SwappedItemCell | one_book_ledger/utils/csv_bill_parser.py:50-52 | under key k sits the row's cell of the column named by k's value, the last entry for k winning |
| CsvBillParser.CsvBill | one_book_ledger/utils/csv_bill_parser.py:31-66 | None exactly for an unreadable file or one without a header |
| CsvBillParser.ParseCsvBill | one_book_ledger/utils/csv_bill_parser.py:14-66 | one item per row, in file order, each the swapped item of its row |
| CsvBillParser.FillItem | one_book_ledger/utils/csv_bill_parser.py:48-53 | the per-row loop builds the swapped item |
| CsvBillParser.ItemsKeyedByColumns | one_book_ledger/utils/csv_bill_parser.py:50-52 | a field that is no mapping key never appears in an item |
| AlipayParser.AlipayItem | one_book_ledger/bill_parser/alipay_parser.py:56-68 | an item is assembled exactly when parsing its date does not raise and its raw summary is text |
| AlipayParser.AlipayBill | one_book_ledger/bill_parser/alipay_parser.py:48-75 | None exactly when the CSV stage gives None or no rows; otherwise no more items than rows |
| AlipayParser.ParseAlipayCsvBill | one_book_ledger/bill_parser/alipay_parser.py:25-75 | the loop computes `AlipayBill` of the CSV stage |
| AlipayParser.AlipayConstants | one_book_ledger/bill_parser/alipay_parser.py:56-68 | every item has account and payment method '支付宝' and status '交易成功' |
| AlipayParser.AlipayFallbacks | one_book_ledger/bill_parser/alipay_parser.py:59-61 | summary, counterparty and description take the first truthy value of their priority chains |
| AlipayParser.AlipayDate | one_book_ledger/bill_parser/alipay_parser.py:58 | a falsy raw date gives None; a non-zero number or NaN raises (no text to read); a timestamp stays as it is; non-empty text gives the timestamp '%Y-%m-%d %H:%M:%S' reads from it, None when it reads none |
| AlipayParser.AlipayTypeAmountDate | one_book_ledger/bill_parser/alipay_parser.py:58-67 | the type classifies the raw summary; the amount is 0.0 without a raw amount and `parse_amount(str(v))` otherwise; a missing or falsy date gives None, a timestamp is kept, and non-empty text gives the timestamp '%Y-%m-%d %H:%M:%S' reads from it or None |
| AlipayParser.AlipayThroughCsv | one_book_ledger/bill_parser/alipay_parser.py:36-68 | through the swapped CSV mapping, every item has no date, an empty direction and the type '未知类型' |
| AlipayParser.MappingKeys | one_book_ledger/bill_parser/alipay_parser.py:36-45 | no key of the Alipay mapping is '日期', '交易摘要' or '收/支类型' |
| AlipayParser.LackingFields | one_book_ledger/bill_parser/alipay_parser.py:56-68 | raw items without those three fields give items without date and direction, typed '未知类型' |
| AlipayParser.AlipayMissingFile | one_book_ledger/bill_parser/alipay_parser.py:48-50 | a missing file or a file without a header gives None |
| SpdbParser.SpdbColumns | one_book_ledger/bill_parser/spdb_parser.py:38-51 | each index is None exactly when the header lacks its column, and otherwise points at that column |
| SpdbParser.Cell | one_book_ledger/bill_parser/spdb_parser.py:63 | indexing raises exactly for a None or out-of-range index |
| SpdbParser.SpdbDirection | one_book_ledger/bill_parser/spdb_parser.py:77 | the direction is always '支出' or '收入' |
| SpdbParser.SpdbItem | one_book_ledger/bill_parser/spdb_parser.py:61-82 | a row assembles exactly when its three cells exist, its date does not raise and its summary is text |
| SpdbParser.SpdbBill | one_book_ledger/bill_parser/spdb_parser.py:25-89 | no more items than data rows |
| SpdbParser.ParseSpdbRows | one_book_ledger/bill_parser/spdb_parser.py:37-89 | the row loop computes `SpdbBill` |
| SpdbParser.SpdbMissingColumn | one_book_ledger/bill_parser/spdb_parser.py:45-86 | a header missing any of the three columns gives no items |
| SpdbParser.SpdbItems | one_book_ledger/bill_parser/spdb_parser.py:55-80 | every item has the SPDB constants and no summary; counterparty and description are the same text; the type classifies it |
| SpdbParser.SpdbItemFields | one_book_ledger/bill_parser/spdb_parser.py:63-77 | an assembled item's counterparty and description are its row's summary cell, its amount is `parse_amount(str(v))` of the amount cell, its direction follows that amount's sign, and its date is the day '%Y%m%d' reads from the date cell, None when it reads none |
| SpdbParser.SpdbItemsFromRows | one_book_ledger/bill_parser/spdb_parser.py:54-82 | every item of the bill is the item assembled from one non-empty data row |
| SpdbParser.SpdbDirections | one_book_ledger/bill_parser/spdb_parser.py:77 | '支出' exactly for negative amounts, '收入' for all others |
| SpdbParser.SpdbDateCompact | one_book_ledger/bill_parser/spdb_parser.py:63-64 | a date text shorter than six or longer than eight characters gives no date |
| SpdbParser.SpdbRowKept | one_book_ledger/bill_parser/spdb_parser.py:58-86 | a non-empty row with all three cells is kept exactly when its date is falsy, text or a date-time and its summary is text |
| Wrappers.Kept | one_book_ledger/bill_parser/alipay_parser.py:52-73 | a try/continue loop keeps no more results than inputs |
| Wrappers.KeptFrom | one_book_ledger/bill_parser/alipay_parser.py:52-73 | every kept result comes from some input |
| Wrappers.KeptAll | one_book_ledger/bill_parser/alipay_parser.py:52-73 | when nothing raises, every input gives its result, in order |
| Wrappers.KeptNone | one_book_ledger/bill_parser/alipay_parser.py:52-73 | when everything raises, nothing is kept |
| Wrappers.KeepResults | one_book_ledger/bill_parser/alipay_parser.py:52-73 | the loop computes `Kept` |
| Frames.EmptyTable | one_book_ledger/bill_parser/utils.py:70 | `pd.DataFrame()` has no columns and no rows |
| Frames.AssignKeeps | one_book_ledger/bill_parser/utils.py:74 | assigning a column keeps the frame well formed, sets that column, leaves every other column alone and appends a new name at the end |
| Frames.Constant | one_book_ledger/bill_parser/utils.py:113 | a broadcast constant has the value on every row |
| Frames.Frame.constructor | one_book_ledger/bill_parser/utils.py:70 | a new frame is empty |
| Frames.Frame.SetColumn | one_book_ledger/bill_parser/utils.py:74-80 | the frame becomes the assignment of the column to its old contents |
| Frames.Frame.AddConstantColumn | one_book_ledger/bill_parser/utils.py:100-114 | the frame, changed in place, gains or overwrites the column with the constant on every row |
| Frames.Frame.SetWhere | one_book_ledger/bill_parser/wechat_parser.py:47-48 | `df.loc[mask, name] = v` writes v on the masked rows of the column, in place |
| Frames.Frame.ApplyTriple | one_book_ledger/bill_parser/utils.py:72-82 | one triple raises or updates the frame exactly as the step function says |
| Frames.ApplyColumn | one_book_ledger/bill_parser/utils.py:73-74 | `apply` succeeds exactly when the function succeeds on every cell, and maps them cell by cell |
| Frames.ApplyEach | one_book_ledger/bill_parser/utils.py:73-74 | the cell loop computes `ApplyColumn` |
| Frames.RaiseExtends | one_book_ledger/bill_parser/utils.py:73-74 | a cell that raises makes the whole column raise |
| Frames.MapOrKeepCells | one_book_ledger/bill_parser/utils.py:75-78 | a dict transform maps the cells it has a key for and keeps the others |
| Frames.Produced | one_book_ledger/bill_parser/utils.py:72-82 | a produced column is as long as the input frame |
| Frames.TransformWellFormed | one_book_ledger/bill_parser/utils.py:59-84 | the result is well formed and, when it has columns, as long as the input |
| Frames.TransformDataFrame | one_book_ledger/bill_parser/utils.py:59-84 | the triple loop raises or builds the frame of `TransformTable` |
| Frames.RaiseSticks | one_book_ledger/bill_parser/utils.py:71-74 | a prefix of triples that raises makes the whole transform raise |
| Frames.RaiseFree | one_book_ledger/bill_parser/utils.py:71-74 | a transform that succeeds succeeds on every prefix |
| Frames.TransformRaises | one_book_ledger/bill_parser/utils.py:71-74 | the transform raises exactly when some callable raises on its source column |
| Frames.TransformTargets | one_book_ledger/bill_parser/utils.py:70-82 | the output columns are the targets of triples whose source exists and whose transform is valid |
| Frames.TransformLastWins | one_book_ledger/bill_parser/utils.py:74-80 | a target column holds what its last applicable triple produced |
| Frames.NamesKept | one_book_ledger/bill_parser/utils.py:70-84 | later triples never reorder or drop earlier columns |
| Frames.TransformOrder | one_book_ledger/bill_parser/utils.py:70-84 | columns appear in the order their triples come |
| Paths.Splitext | one_book_ledger/upload_handler.py:14 | stem and extension concatenate to the path; the extension is empty or one dot-led suffix without another dot or slash |
| Paths.SplitextNoDot | one_book_ledger/upload_handler.py:14 | a name without a dot has no extension |
| Paths.SplitextInsert | one_book_ledger/upload_handler.py:14-15 | text without dots or slashes inserted before the extension keeps the split |
| Paths.InsertAt | one_book_ledger/upload_handler.py:14-15 | inserting before a genuine extension moves only the stem |
| Paths.ExtensionAt | one_book_ledger/upload_handler.py:14 | the last dot of the base name, after a non-dot character, starts the extension |
| Paths.SplitextLastDot | one_book_ledger/upload_handler.py:14 | 'a.tar.gz' splits into 'a.tar' and '.gz' |
| UploadHandler.GenerateUniqueFilename | one_book_ledger/upload_handler.py:12-16 | the stored name is 16 characters longer than the original |
| UploadHandler.StampChars | one_book_ledger/upload_handler.py:13 | the timestamp holds only digits and '_' |
| UploadHandler.UniqueFilenameSplits | one_book_ledger/upload_handler.py:14-15 | the stored name keeps the original extension exactly, and its stem is the old stem, '_' and the timestamp |
| UploadHandler.UniqueFilenameNoDot | one_book_ledger/upload_handler.py:14-15 | a name without a dot gets '_' and the timestamp appended |
| UploadHandler.UniqueFilenameLastDot | one_book_ledger/upload_handler.py:14-15 | 'a.tar.gz' becomes 'a.tar_<timestamp>.gz' |
| UploadHandler.UniqueFilenameParts | one_book_ledger/upload_handler.py:14-15 | the stored name is stem, '_', timestamp and extension |
| CommonParser.Extension | one_book_ledger/bill_parser/common_paser.py:22 | the extension is as long as the split suffix and starts with a dot unless empty |
| CommonParser.ReadTable | one_book_ledger/bill_parser/common_paser.py:22-33 | any extension other than '.csv', '.xlsx' or '.xls' reads nothing |
| CommonParser.ParseTable | one_book_ledger/bill_parser/common_paser.py:10-44 | a frame results exactly when the reader gives one and the transform does not raise |
| CommonParser.Parse | one_book_ledger/bill_parser/common_paser.py:10-44 | the imperative `parse` gives a fresh frame holding `ParseTable`, or None exactly when that is None |
| CommonParser.WithConstantsShape | one_book_ledger/bill_parser/common_paser.py:37-39 | adding constants keeps the frame well formed, its height and its earlier columns in place |
| CommonParser.WithConstantsDomain | one_book_ledger/bill_parser/common_paser.py:37-39 | the columns afterwards are the old ones plus the constants' names |
| CommonParser.WithConstantsValues | one_book_ledger/bill_parser/common_paser.py:37-39 | a constant column holds its value on every row, the last entry of a name winning |
| CommonParser.WithConstantsOthers | one_book_ledger/bill_parser/common_paser.py:37-39 | a column not named by any constant is unchanged |
| CommonParser.ParseResult | one_book_ledger/bill_parser/common_paser.py:35-41 | the parsed frame is the transform with the constants added on top, overriding mapped columns of the same name |
| CommonParser.ParseConstantColumn | one_book_ledger/bill_parser/common_paser.py:37-39 | each constant is on every row of the parsed frame |
| CommonParser.ParseTransformedColumn | one_book_ledger/bill_parser/common_paser.py:35-41 | a transformed column no constant overrides survives unchanged |
| CommonParser.ParseConvertedColumn | one_book_ledger/bill_parser/common_paser.py:35-41 | a converted column holds the converter applied to the source cell, row by row |
| CommonParser.ParseCopiedColumn | one_book_ledger/bill_parser/common_paser.py:35-41 | a copied column equals its source column |
| CommonParser.UpperCaseCsv | one_book_ledger/bill_parser/common_paser.py:22-25 | 'bill.CSV' goes to the CSV reader with the given encoding and skip count |
| CommonParser.BackupNotRead | one_book_ledger/bill_parser/common_paser.py:28-30 | 'bill.csv.bak' is not parsed |
| ZhongxinParser.ExtractAccount | one_book_ledger/bill_parser/zhongxin_parser.py:5-19 | None exactly without a dash; otherwise the dash-free text before the first dash |
| ZhongxinParser.ExtractDescription | one_book_ledger/bill_parser/zhongxin_parser.py:21-36 | the whole text without a dash; otherwise the dash-free segment after the first dash |
| ZhongxinParser.ExtractParts | one_book_ledger/bill_parser/zhongxin_parser.py:16-36 | 'a-b…' gives account 'a' and description 'b' whatever follows the second dash |
| ZhongxinParser.OneDashRoundTrip | one_book_ledger/bill_parser/zhongxin_parser.py:16-36 | with exactly one dash, account, dash and description rebuild the text |
| ZhongxinParser.ExtractTwoDashes | one_book_ledger/bill_parser/zhongxin_parser.py:33-34 | 'a-b-c' gives 'a' and 'b' |
| ZhongxinParser.ExtractAccountValue | one_book_ledger/bill_parser/zhongxin_parser.py:48 | a non-text cell raises; a text cell gives None exactly without a dash, and otherwise its account |
| ZhongxinParser.ExtractDescriptionValue | one_book_ledger/bill_parser/zhongxin_parser.py:50 | a non-text cell raises; a text cell gives its description |
| ZhongxinParser.ParseZhongxinCsv | one_book_ledger/bill_parser/zhongxin_parser.py:38-56 | the adapter gives the common parse of the CITIC configuration |
| ZhongxinParser.ZhongxinFails | one_book_ledger/bill_parser/zhongxin_parser.py:44-56 | the bill fails exactly when the reader fails or a converter raises on a cell |
| ZhongxinParser.ZhongxinAmounts | one_book_ledger/bill_parser/zhongxin_parser.py:51-52 | row by row, the amount is the unsigned and the direction the sign of the same source cell |
| ZhongxinParser.ZhongxinExtrasDistinct | one_book_ledger/bill_parser/zhongxin_parser.py:54 | the three constant columns have distinct names |
| ZhongxinParser.ZhongxinConstants | one_book_ledger/bill_parser/zhongxin_parser.py:54 | every row has empty category and status and the bill '中信银行' |
| ZhongxinParser.ZhongxinSignRecovered | one_book_ledger/bill_parser/zhongxin_parser.py:51-52 | the unsigned amount and the direction give back the signed amount |
| WechatParser.ConvertRefundStatus | one_book_ledger/bill_parser/wechat_parser.py:5-22 | None stays None; text becomes itself or '已退款' |
| WechatParser.RefundStatusKeepsRefund | one_book_ledger/bill_parser/wechat_parser.py:19-22 | text mentioning '已退款' becomes exactly '已退款'; other text is unchanged |
| WechatParser.RefundStatusIdempotent | one_book_ledger/bill_parser/wechat_parser.py:16-22 | normalising twice is normalising once |
| WechatParser.PartialRefund | one_book_ledger/bill_parser/wechat_parser.py:19-20 | '已退款（部分）￥0.50' becomes '已退款' |
| WechatParser.EmptyStatus | one_book_ledger/bill_parser/wechat_parser.py:21-22 | the empty status stays empty |
| WechatParser.StatusMask | one_book_ledger/bill_parser/wechat_parser.py:47 | the mask is true exactly on the '已存入零钱' rows |
| WechatParser.Fixup | one_book_ledger/bill_parser/wechat_parser.py:47-48 | the fix-up raises exactly when the frame has no status column |
| WechatParser.FixupFrame | one_book_ledger/bill_parser/wechat_parser.py:47-48 | the two in-place writes leave the frame the fix-up describes |
| WechatParser.ParseWechatCsv | one_book_ledger/bill_parser/wechat_parser.py:25-49 | the adapter raises exactly when the parse gives None or the fix-up raises, and otherwise gives the fixed-up frame |
| WechatParser.FixupShape | one_book_ledger/bill_parser/wechat_parser.py:47-48 | only the account and status columns change, and the height is kept |
| WechatParser.FixupRows | one_book_ledger/bill_parser/wechat_parser.py:47-48 | change-wallet rows get '零钱' and '交易成功'; other rows keep their status and account |
| WechatParser.FixupClearsStatus | one_book_ledger/bill_parser/wechat_parser.py:47-48 | no row keeps the status '已存入零钱' |
| WechatParser.WechatMappingShape | one_book_ledger/bill_parser/wechat_parser.py:33-43 | eight copy triples into distinct columns, none of them the constant one |
| WechatParser.WechatCopies | one_book_ledger/bill_parser/wechat_parser.py:33-44 | each mapped column is the bill's own column under its new name |
| WechatParser.WechatBillName | one_book_ledger/bill_parser/wechat_parser.py:43-44 | every row carries '微信' as its bill |

## Left out

- Classifier: other shadowed alternatives are not enumerated, for example
  '电影' under ENTERTAINMENT before BOOKS_MEDIA.
- LedgerUtils.ParseAmountAfterSymbol: covers '¥1,234.56' through its
  general statement; the concrete instance is not stated.
- FieldConvert.RemoveSign: rounds the exact decimal value half-to-even on
  hundredths. `'{:.2f}'` rounds a binary float, which can differ on inputs
  with more than two decimals.
- Python `float()` accepts a sign, digits and an optional fraction between
  whitespace (`str.isspace()`, which includes the separators 0x1C-0x1F).
  Exponents, 'inf'/'nan' and underscores are not modelled, and amounts are
  exact reals, not binary floats.
- Text.IsDigit: digits are ASCII '0'-'9'. Python's `float()`, `\d` and
  `strptime` also accept the Unicode decimal digits of other scripts, so
  `parse_amount('￥１２３')` is 123.0 in Python but 0.0 here, and a date
  written in full-width digits is refused here but read by Python.
- Text.Lower: lower-cases ASCII letters only; Unicode case mapping is not
  modelled. The classifier's alternatives and the 'CNY' prefix are ASCII or
  caseless Chinese, so this only affects exotic summaries.
- DateTimes.Strptime: models the format regexes `_strptime` compiles for
  the three layouts in use, including single-digit fields, the day's
  ' [1-9]' alternative, backtracking between alternatives and `\s+` for
  the blank of '%Y-%m-%d %H:%M:%S'. Only the Unicode digits noted under
  Text.IsDigit are not modelled.
- Regular expressions are modelled as the specific scanners they amount to:
  literal prefix alternatives with the one '.' wildcard, the
  currency-symbol pattern and the 'CNY' pattern. `\s` is Python's Unicode
  whitespace, the characters `str.isspace()` accepts.
- The readers are oracles:
  - `csv.DictReader`, the openpyxl sheet, `pd.read_csv` and
    `pd.read_excel` are taken as given results;
  - decoding under an encoding and the parsing of file contents are not
    modelled;
  - the openpyxl rows 2..max_row are given as a sequence.
- Encoding and header-skip auto-detection: the adapters hard-code both,
  and `chardet` is imported but never used.
- Logging and `print` calls are left out; they have no effect on results.
  Among them is the missing-column loop of `parse_csv_bill`
  (`one_book_ledger/utils/csv_bill_parser.py:38-44`), whose index map is
  never read.
- Exceptions: one `Raise` stands for every exception class. Which
  exception was raised, and its message, are not modelled.
- Ledger items of the dict path are a record with one field per key. Key
  order is not kept. SPDB items lack '交易摘要', so that field is an Option.
- pandas is modelled positionally:
  - index alignment and dtype inference are not modelled;
  - the mask of the WeChat fix-up compares cells for equality, so NaN never
    matches.
- `convert_refund_status` is defined next to the WeChat adapter but not
  called by it. The model keeps it separate, as the code does.
- Storage, the Streamlit pages and the side effects of
  `bill_file_uploader` are left out: the file writes and the database save.
- The clock of `generate_unique_filename` is a parameter.
- `os.path.splitext` is the POSIX version; Windows separators are not
  modelled.
- The reading, writing and demo helpers of
  `one_book_ledger/bill_parser/utils.py` are left out (lines 4-56 and
  87-97).
