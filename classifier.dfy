/** The transaction classifier of one_book_ledger/utils/utils.py: the closed
    TransactionType enumeration and `standardize_transaction_type`, an ordered,
    first-match-wins table of rules, each a list of alternatives that must
    occur at the very start of the lower-cased summary. */
module Classifier {
  import opened Wrappers
  import opened Text

  /** The members of the `TransactionType` enum, in declaration order. */
  datatype TransactionType =
    | Unknown | Payment | Transfer | Recharge | Refund | Withdrawal | Dining
    | Transportation | Shopping | Entertainment | DailyNecessities | Supermarket
    | Grocery | DigitalProducts | Clothing | BeautyCosmetics | BooksMedia | Travel
    | Housing | Utilities | Telecommunications | FinancialServices | Salary
    | InvestmentIncome | Interest | TaxRefund | CreditCardRepayment | CashWithdrawal
    | Others

  /** A member's `.value`, the label stored in ledger items. */
  function Label(t: TransactionType): string
  {
    match t
    case Unknown => "未知类型"
    case Payment => "支付"
    case Transfer => "转账"
    case Recharge => "充值"
    case Refund => "退款"
    case Withdrawal => "提现"
    case Dining => "餐饮美食"
    case Transportation => "交通出行"
    case Shopping => "购物消费"
    case Entertainment => "休闲娱乐"
    case DailyNecessities => "日用百货"
    case Supermarket => "商超购物"
    case Grocery => "生鲜食品"
    case DigitalProducts => "数码家电"
    case Clothing => "服饰鞋包"
    case BeautyCosmetics => "美妆个护"
    case BooksMedia => "图书音像"
    case Travel => "旅游出行"
    case Housing => "住房缴费"
    case Utilities => "水电煤缴费"
    case Telecommunications => "通讯缴费"
    case FinancialServices => "金融服务"
    case Salary => "工资收入"
    case InvestmentIncome => "投资理财"
    case Interest => "利息收入"
    case TaxRefund => "退税"
    case CreditCardRepayment => "信用卡还款"
    case CashWithdrawal => "现金提取"
    case Others => "其他"
  }

  /** One character of an alternative against one character of the summary.
      The alternatives are literal text except for the '.' of ' jd.com ', which
      is the regex wildcard: any one character other than a newline. */
  predicate CharMatches(x: char, p: char)
  {
    if p == '.' then x != '\n' else x == p
  }

  /** `text` and `pattern` agree character by character. */
  predicate Fits(text: string, pattern: string)
    requires |text| == |pattern|
  {
    text == [] || (CharMatches(text[0], pattern[0]) && Fits(text[1..], pattern[1..]))
  }

  /** An alternative of a rule's `^(a|b|...)` group matches at the start of `t`. */
  predicate AltMatches(t: string, alt: string)
  {
    |alt| <= |t| && Fits(t[..|alt|], alt)
  }

  /** Fitting is the character-wise agreement the regex engine checks. */
  lemma {:induction false} FitsEach(text: string, pattern: string)
    requires |text| == |pattern|
    ensures Fits(text, pattern) <==> forall i :: 0 <= i < |text| ==> CharMatches(text[i], pattern[i])
  {
    if text != [] {
      FitsEach(text[1..], pattern[1..]);
      assert forall i :: 1 <= i < |text| ==> text[1..][i - 1] == text[i] && pattern[1..][i - 1] == pattern[i];
    }
  }

  /** An alternative without a wildcard matches exactly the texts it begins. */
  lemma LiteralAltMatches(t: string, alt: string)
    requires '.' !in alt
    ensures AltMatches(t, alt) <==> StartsWith(t, alt)
  {
    if |alt| <= |t| {
      FitsEach(t[..|alt|], alt);
      if AltMatches(t, alt) {
        assert forall i :: 0 <= i < |alt| ==> t[..|alt|][i] == alt[i];
      }
    }
  }

  /** Some alternative of `alts` matches `t`: the regex group `(a|b|...)`. */
  predicate AnyAltMatches(t: string, alts: seq<string>)
    decreases |alts|
  {
    alts != [] && (AltMatches(t, alts[0]) || AnyAltMatches(t, alts[1..]))
  }

  /** The rule of category `c` in a table whose rules are `alts` matches `t`. */
  predicate RuleMatches(t: string, alts: TransactionType -> seq<string>, c: TransactionType)
  {
    AnyAltMatches(t, alts(c))
  }

  /** The group matches exactly when one of its alternatives does. */
  lemma {:induction false} AnyAltMatchesIff(t: string, alts: seq<string>)
    ensures AnyAltMatches(t, alts) <==> exists alt :: alt in alts && AltMatches(t, alt)
    decreases |alts|
  {
    if alts != [] {
      AnyAltMatchesIff(t, alts[1..]);
      if AnyAltMatches(t, alts[1..]) {
        var alt :| alt in alts[1..] && AltMatches(t, alt);
        assert alt in alts;
      }
      forall alt | alt in alts && AltMatches(t, alt) && alt != alts[0]
        ensures alt in alts[1..]
      {
        var i :| 0 <= i < |alts| && alts[i] == alt;
        assert alts[1..][i - 1] == alt;
      }
    }
  }

  /** The categories of the `if re.search(...)` / `elif re.search(...)`
      cascade, in source order. */
  function Order(): seq<TransactionType>
  {
    [Dining, Transportation, Shopping, Entertainment, DailyNecessities, Supermarket, Grocery, DigitalProducts, Clothing, BeautyCosmetics, BooksMedia, Travel, Housing, Utilities, Telecommunications, FinancialServices, Salary, InvestmentIncome, Interest, TaxRefund, CreditCardRepayment, CashWithdrawal, Payment, Transfer, Recharge, Refund]
  }

  /** The alternatives of each category's rule (UNKNOWN, WITHDRAWAL and
      OTHERS have none). */
  function Alts(c: TransactionType): seq<string>
  {
    match c
    // utils.py:60
    case Dining =>
      ["麦当劳", "肯德基", "星巴克", "咖啡", "餐饮", "美食", "茶饮", "小吃"] +
      ["快餐", "外卖", "餐厅", "饭店", "食堂", "自助餐", "火锅", "烧烤"] +
      ["烤肉", "披萨", "汉堡", "炸鸡", "奶茶", "果汁", "面包", "蛋糕"] +
      ["甜点", "零食", "夜宵", "早点", "午餐", "晚餐", "宵夜", "下午茶"] +
      ["咖啡馆", "餐馆", "小馆", "饭馆", "酒楼", "菜馆", "茶餐厅", "料理"] +
      ["美食城", " food ", " eat ", " dining ", " restaurant "] +
      [" coffee ", " cafe ", " mcdonald's ", " kfc ", " starbucks"]
    // utils.py:64
    case Transportation =>
      ["地铁", "公交", "滴滴", "打车", "出租车", "共享单车", "单车", "自行车"] +
      ["火车", "高铁", "机票", " bus ", " subway ", " taxi ", " ride "] +
      [" bike ", " transportation ", " travel ", " airport ", " railway "] +
      [" station ", " 轨道交通"]
    // utils.py:68
    case Shopping =>
      ["淘宝", "天猫", "京东", "拼多多", "亚马逊", "当当", "唯品会", "苏宁易购"] +
      ["国美电器", "超市", "商场", "购物", "消费", "买", " purchase "] +
      [" shop ", " shopping ", " tmall ", " taobao ", " jd.com "] +
      [" pdd ", " amazon ", " supermarket ", " mall ", " store "] +
      [" 门店", "便利店", "7-eleven", "全家", "屈臣氏", "沃尔玛", "家乐福"] +
      ["华联", "物美", "永辉", "京客隆", "超市发", "超市发超市"]
    // utils.py:72
    case Entertainment =>
      ["电影", "KTV", "酒吧", "剧院", "演出", "展览", "演唱会", "音乐会"] +
      ["体育赛事", "健身", "运动", "游戏", "视频会员", "音乐会员", "电影票"] +
      ["ktv ", " bar ", " theater ", " performance ", " exhibition "] +
      [" concert ", " sports ", " fitness ", " exercise ", " game "] +
      [" movie ", " entertainment ", " leisure"]
    // utils.py:76
    case DailyNecessities =>
      ["日用品", "百货", "家居", "家纺", "厨具", "餐具", "家电", "电器"] +
      ["数码", "手机", "电脑", "办公用品", "文具", "纸巾", "牙膏", "洗发水"] +
      ["沐浴露", "洗衣液", "卫生巾", " household ", " daily use "] +
      [" necessities ", " home ", " furniture ", " appliance "] +
      [" digital ", " stationery ", " paper ", " tissue ", " toothpaste "] +
      [" shampoo ", " body wash ", " laundry detergent"]
    // utils.py:80
    case Supermarket =>
      ["超市", "商场", "shopping mall", "supermarket", "mart"] +
      ["grocery store", " hypermarket"]
    // utils.py:84
    case Grocery =>
      ["生鲜", "水果", "蔬菜", "肉", "禽", "蛋", "海鲜", "水产"] +
      [" dairy ", " fruit ", " vegetable ", " meat ", " seafood "] +
      [" grocery ", " produce ", " fresh food"]
    // utils.py:88
    case DigitalProducts =>
      ["数码产品", "电子产品", "家电", "手机", "电脑", "平板", "相机", "电视"] +
      ["冰箱", "洗衣机", "空调", " digital product ", " electronics "] +
      [" appliance ", " mobile phone ", " computer ", " tablet "] +
      [" camera ", " tv ", " refrigerator ", " washing machine "] +
      [" air conditioner"]
    // utils.py:92
    case Clothing =>
      ["服装", "衣服", "鞋子", "包", "帽子", "围巾", "手套", " fashion "] +
      [" clothing ", " clothes ", " shoes ", " bags ", " hats "] +
      [" scarves ", " gloves"]
    // utils.py:96
    case BeautyCosmetics =>
      ["化妆品", "护肤品", "彩妆", "香水", " personal care ", " beauty "] +
      [" cosmetics ", " makeup ", " perfume ", " skincare ", " 美容"] +
      ["个护"]
    // utils.py:100
    case BooksMedia =>
      ["图书", "书籍", "书店", "音像制品", "电影", "音乐", "唱片", "书本"] +
      ["杂志", "报纸", "电子书", " ebook ", " books ", " bookstore "] +
      [" media ", " film ", " music ", " cd ", " magazine "] +
      [" newspaper"]
    // utils.py:104
    case Travel =>
      ["旅行", "酒店", "住宿", "景点", "机票", "火车票", "旅游", "旅馆"] +
      ["客栈", "酒店住宿", "hotel ", " accommodation ", " scenic spot "] +
      [" flight ticket ", " train ticket ", " travel ", " tourism "] +
      [" hostel ", " inn"]
    // utils.py:108
    case Housing =>
      ["房租", "物业费", "房贷", "租房", " mortgage ", " rent "] +
      [" property management fee ", " housing payment"]
    // utils.py:112
    case Utilities =>
      ["水费", "电费", "燃气费", " energy bill ", " water bill "] +
      [" electricity bill ", " gas bill ", " utility bill ", " 水电费", "煤气费"]
    // utils.py:116
    case Telecommunications =>
      ["话费", "流量费", "宽带费", "网费", "通讯费", "电话费", "手机费", "通信费"] +
      [" telecommunication fee ", " phone bill ", " mobile bill "] +
      [" internet fee ", " broadband fee ", " network fee"]
    // utils.py:120
    case FinancialServices =>
      ["理财", "保险", "证券", "基金", "股票", "期货", "银行", "支付"] +
      ["贷款", " finance ", " insurance ", " securities ", " fund "] +
      [" stock ", " futures ", " bank ", " payment ", " loan ", " 金融"] +
      ["理财产品", " investment"]
    // utils.py:124
    case Salary =>
      ["工资", "薪资", " salary ", " wage ", " income ", " 收入-工资"]
    // utils.py:128
    case InvestmentIncome =>
      ["投资收入", "理财收入", "分红", " dividend ", " investment income "] +
      [" wealth management income"]
    // utils.py:132
    case Interest =>
      ["利息", " interest ", " 收益-利息"]
    // utils.py:136
    case TaxRefund =>
      ["退税", " tax refund "]
    // utils.py:140
    case CreditCardRepayment =>
      ["信用卡还款", " credit card repayment "]
    // utils.py:144
    case CashWithdrawal =>
      ["现金提取", "提现", " withdraw ", " cash withdrawal "]
    // utils.py:148
    case Payment =>
      ["支付", "付款", "缴费", " spend ", " pay ", " payment "] +
      [" expense"]
    // utils.py:152
    case Transfer =>
      ["转账", " transfer ", " 支出-转账"]
    // utils.py:156
    case Recharge =>
      ["充值", " recharge ", " 收入-充值"]
    // utils.py:160
    case Refund =>
      ["退款", " refund "]
    case _ => []
  }

  /** The alternative at position `i` matching is enough for the group. */
  lemma {:induction false} AnyAltMatchesAt(t: string, alts: seq<string>, i: nat)
    requires i < |alts| && AltMatches(t, alts[i])
    ensures AnyAltMatches(t, alts)
    decreases i
  {
    if i > 0 {
      assert alts[1..][i - 1] == alts[i];
      AnyAltMatchesAt(t, alts[1..], i - 1);
    }
  }

  /** The cascade over a rule table: the category of the first rule that
      matches `t`, UNKNOWN when none does. */
  function ClassifyWith(order: seq<TransactionType>, alts: TransactionType -> seq<string>, t: string): (r: TransactionType)
    ensures r == Unknown || exists j :: 0 <= j < |order| && order[j] == r
    decreases |order|
  {
    if order == [] then Unknown
    else if RuleMatches(t, alts, order[0]) then order[0]
    else
      var r := ClassifyWith(order[1..], alts, t);
      assert r != Unknown ==> exists j :: 0 <= j < |order| && order[j] == r by {
        if r != Unknown {
          var j :| 0 <= j < |order[1..]| && order[1..][j] == r;
          assert order[j + 1] == r;
        }
      }
      r
  }

  /** With no UNKNOWN rule in the table, UNKNOWN means that no rule matched. */
  lemma {:induction false} ClassifyWithUnknown(order: seq<TransactionType>, alts: TransactionType -> seq<string>, t: string)
    requires forall j :: 0 <= j < |order| ==> order[j] != Unknown
    ensures ClassifyWith(order, alts, t) == Unknown <==> forall j :: 0 <= j < |order| ==> !RuleMatches(t, alts, order[j])
    decreases |order|
  {
    if order != [] {
      ClassifyWithUnknown(order[1..], alts, t);
      if !RuleMatches(t, alts, order[0]) {
        forall j | 0 <= j < |order[1..]| ensures order[1..][j] == order[j + 1] { }
      }
    }
  }

  /** A non-UNKNOWN result is the category of a matching rule all of whose
      predecessors fail: first match wins. */
  lemma {:induction false} ClassifyWithFirstMatch(order: seq<TransactionType>, alts: TransactionType -> seq<string>, t: string)
    requires forall j :: 0 <= j < |order| ==> order[j] != Unknown
    requires ClassifyWith(order, alts, t) != Unknown
    ensures exists j :: 0 <= j < |order| && RuleMatches(t, alts, order[j]) && order[j] == ClassifyWith(order, alts, t) &&
                        (forall i :: 0 <= i < j ==> !RuleMatches(t, alts, order[i]))
    decreases |order|
  {
    if !RuleMatches(t, alts, order[0]) {
      ClassifyWithFirstMatch(order[1..], alts, t);
      var j :| 0 <= j < |order[1..]| && RuleMatches(t, alts, order[1..][j]) && order[1..][j] == ClassifyWith(order, alts, t)
        && forall i :: 0 <= i < j ==> !RuleMatches(t, alts, order[1..][i]);
      assert order[j + 1] == order[1..][j];
      forall i | 0 <= i < j + 1 ensures !RuleMatches(t, alts, order[i]) {
        if i > 0 { assert order[i] == order[1..][i - 1]; }
      }
    } else {
      assert RuleMatches(t, alts, order[0]) && order[0] == ClassifyWith(order, alts, t);
    }
  }

  /** Once rule `k` matches, the category comes from rule `k` or from an
      earlier rule: later order cannot decide. */
  lemma {:induction false} ClassifyWithNoLaterThan(order: seq<TransactionType>, alts: TransactionType -> seq<string>, t: string, k: nat)
    requires k < |order| && RuleMatches(t, alts, order[k])
    ensures exists j :: 0 <= j <= k && ClassifyWith(order, alts, t) == order[j]
    decreases |order|
  {
    if !RuleMatches(t, alts, order[0]) {
      assert order[1..][k - 1] == order[k];
      ClassifyWithNoLaterThan(order[1..], alts, t, k - 1);
      var j :| 0 <= j <= k - 1 && ClassifyWith(order[1..], alts, t) == order[1..][j];
      assert order[1..][j] == order[j + 1];
    } else {
      assert ClassifyWith(order, alts, t) == order[0];
    }
  }

  /** A rule that matches after every earlier rule has failed decides the
      category. */
  lemma {:induction false} ClassifyWithDecides(order: seq<TransactionType>, alts: TransactionType -> seq<string>, t: string, k: nat)
    requires k < |order| && RuleMatches(t, alts, order[k])
    requires forall i :: 0 <= i < k ==> !RuleMatches(t, alts, order[i])
    ensures ClassifyWith(order, alts, t) == order[k]
    decreases k
  {
    if k > 0 {
      assert !RuleMatches(t, alts, order[0]);
      forall i | 0 <= i < k - 1 ensures !RuleMatches(t, alts, order[1..][i]) {
        assert order[1..][i] == order[i + 1];
      }
      assert order[1..][k - 1] == order[k];
      ClassifyWithDecides(order[1..], alts, t, k - 1);
    }
  }

  /** Every alternative of `alts` at a position in [lo, hi) is non-empty and
      begins with neither the wildcard nor one of `heads`. */
  predicate NoneBeginsBetween(alts: seq<string>, lo: nat, hi: nat, heads: string)
  {
    forall i :: lo <= i < hi && i < |alts| ==> alts[i] != [] && alts[i][0] != '.' && alts[i][0] !in heads
  }

  /** No alternative of `alts` is empty or begins with the wildcard or with
      one of `heads`. */
  predicate NoneBegins(alts: seq<string>, heads: string)
  {
    NoneBeginsBetween(alts, 0, |alts|, heads)
  }

  /** Such a group matches neither the empty text nor a text whose first
      character is one of `heads`. */
  lemma NoneBeginsFails(t: string, alts: seq<string>, heads: string)
    requires NoneBegins(alts, heads) && (t == [] || t[0] in heads)
    ensures !AnyAltMatches(t, alts)
  {
    AnyAltMatchesIff(t, alts);
    forall alt | alt in alts ensures !AltMatches(t, alt) {
      var i :| 0 <= i < |alts| && alts[i] == alt;
    }
  }

  /** Avoiding some first characters avoids any fewer of them. */
  lemma NoneBeginsFewer(alts: seq<string>, heads: string, fewer: string)
    requires NoneBegins(alts, heads) && forall ch :: ch in fewer ==> ch in heads
    ensures NoneBegins(alts, fewer)
  {
  }

  /** The table has a rule for every member except UNKNOWN, WITHDRAWAL and
      OTHERS. */
  lemma TableCategories()
    ensures |Order()| == 26
    ensures forall j :: 0 <= j < |Order()| ==> Order()[j] != Unknown && Order()[j] != Withdrawal && Order()[j] != Others
  {
  }

  /** `standardize_transaction_type` before taking `.value`: lower-case the
      summary, then the category of the first matching rule, else UNKNOWN.
      WITHDRAWAL and OTHERS are never produced. */
  function Classify(summary: string): (r: TransactionType)
    ensures r == Unknown || r in Order()
    ensures r != Withdrawal && r != Others
  {
    TableCategories();
    ClassifyWith(Order(), Alts, Lower(summary))
  }

  /** UNKNOWN means exactly that no rule matched the lower-cased summary. */
  lemma ClassifyUnknown(summary: string)
    ensures Classify(summary) == Unknown <==> forall j :: 0 <= j < |Order()| ==> !RuleMatches(Lower(summary), Alts, Order()[j])
  {
    TableCategories();
    ClassifyWithUnknown(Order(), Alts, Lower(summary));
  }

  /** Any other category is that of a rule that matched the lower-cased
      summary while every earlier rule failed. */
  lemma ClassifyFirstMatch(summary: string)
    requires Classify(summary) != Unknown
    ensures exists j :: 0 <= j < |Order()| && Order()[j] == Classify(summary) && RuleMatches(Lower(summary), Alts, Order()[j]) &&
                        forall i :: 0 <= i < j ==> !RuleMatches(Lower(summary), Alts, Order()[i])
  {
    TableCategories();
    ClassifyWithFirstMatch(Order(), Alts, Lower(summary));
  }

  /** Only UNKNOWN is labelled '未知类型'. */
  lemma LabelOfUnknown(t: TransactionType)
    ensures Label(t) == "未知类型" <==> t == Unknown
  {
  }

  /** No member other than WITHDRAWAL and OTHERS carries their labels. */
  lemma LabelNotProduced(t: TransactionType)
    requires t != Withdrawal && t != Others
    ensures Label(t) != "提现" && Label(t) != "其他"
  {
  }

  /** `standardize_transaction_type` itself: the label of the category. */
  function StandardizeTransactionType(summary: string): (r: string)
    ensures r == "未知类型" <==> Classify(summary) == Unknown
    ensures r != "提现" && r != "其他"
  {
    LabelOfUnknown(Classify(summary));
    LabelNotProduced(Classify(summary));
    Label(Classify(summary))
  }

  /** Once rule `k` matches the lower-cased summary, the category is that
      of rule `k` or of an earlier rule. */
  lemma ClassifyNoLaterThan(s: string, k: nat)
    requires k < |Order()| && RuleMatches(Lower(s), Alts, Order()[k])
    ensures Classify(s) in Order()[..k + 1]
  {
    ClassifyWithNoLaterThan(Order(), Alts, Lower(s), k);
  }

  /** A rule that matches the lower-cased summary after every earlier rule
      has failed decides its category. */
  lemma ClassifyDecides(s: string, k: nat)
    requires k < |Order()| && RuleMatches(Lower(s), Alts, Order()[k])
    requires forall i :: 0 <= i < k ==> !RuleMatches(Lower(s), Alts, Order()[i])
    ensures Classify(s) == Order()[k]
  {
    ClassifyWithDecides(Order(), Alts, Lower(s), k);
  }

  /** Lower-casing keeps a prefix that has no capital letters. */
  lemma LowerKeepsPrefix(s: string, p: string)
    requires StartsWith(s, p) && Lower(p) == p
    ensures StartsWith(Lower(s), p)
  {
    forall i | 0 <= i < |p| ensures Lower(s)[i] == p[i] {
      assert LowerChar(s[i]) == Lower(p)[i];
    }
  }

  /** A summary that starts with alternative `i` of category `c`'s rule,
      an alternative with no capital letter and no wildcard, satisfies the
      rule. */
  lemma RuleMatchesAt(s: string, c: TransactionType, i: nat, word: string)
    requires i < |Alts(c)| && Alts(c)[i] == word
    requires '.' !in word && Lower(word) == word && StartsWith(s, word)
    ensures RuleMatches(Lower(s), Alts, c)
  {
    LowerKeepsPrefix(s, word);
    LiteralAltMatches(Lower(s), word);
    AnyAltMatchesAt(Lower(s), Alts(c), i);
  }

  /** Classification ignores ASCII case. */
  lemma ClassifyCaseInsensitive(s: string)
    ensures Classify(Lower(s)) == Classify(s)
  {
    assert Lower(Lower(s)) == Lower(s);
  }

  /** The upper-case alternative 'KTV' is dead: it is matched against the
      lower-cased summary, which never holds a capital letter. */
  lemma UpperCaseAlternativeDead(s: string)
    ensures !AltMatches(Lower(s), "KTV")
  {
    if |s| > 0 {
      assert Lower(s)[0] == LowerChar(s[0]);
    }
  }

  /** The first characters of each rule's alternatives: no alternative is
      empty or begins with the wildcard; none of the rules before the
      financial-services rule has one beginning with '支', and neither rule
      before the shopping rule has one beginning with '超'. The fifty
      alternatives of the dining rule are checked in two halves. */
  lemma DiningHeadsLow(c: TransactionType)
    requires c == Dining
    ensures NoneBeginsBetween(Alts(c), 0, 25, "支超")
  {
  }

  lemma DiningHeadsHigh(c: TransactionType)
    requires c == Dining
    ensures NoneBeginsBetween(Alts(c), 25, 50, "支超")
  {
  }

  lemma DiningHeads(c: TransactionType)
    requires c == Dining
    ensures NoneBegins(Alts(c), "支超")
  {
    DiningHeadsLow(c);
    DiningHeadsHigh(c);
    assert |Alts(c)| == 50;
  }

  lemma TransportationHeads(c: TransactionType)
    requires c == Transportation
    ensures NoneBegins(Alts(c), "支超")
  {
  }

  lemma ShoppingHeads(c: TransactionType)
    requires c == Shopping
    ensures NoneBegins(Alts(c), "支")
  {
  }

  lemma EntertainmentHeads(c: TransactionType)
    requires c == Entertainment
    ensures NoneBegins(Alts(c), "支")
  {
  }

  lemma DailyNecessitiesHeads(c: TransactionType)
    requires c == DailyNecessities
    ensures NoneBegins(Alts(c), "支")
  {
  }

  lemma SupermarketHeads(c: TransactionType)
    requires c == Supermarket
    ensures NoneBegins(Alts(c), "支")
  {
  }

  lemma GroceryHeads(c: TransactionType)
    requires c == Grocery
    ensures NoneBegins(Alts(c), "支")
  {
  }

  lemma DigitalProductsHeads(c: TransactionType)
    requires c == DigitalProducts
    ensures NoneBegins(Alts(c), "支")
  {
  }

  lemma ClothingHeads(c: TransactionType)
    requires c == Clothing
    ensures NoneBegins(Alts(c), "支")
  {
  }

  lemma BeautyCosmeticsHeads(c: TransactionType)
    requires c == BeautyCosmetics
    ensures NoneBegins(Alts(c), "支")
  {
  }

  lemma BooksMediaHeads(c: TransactionType)
    requires c == BooksMedia
    ensures NoneBegins(Alts(c), "支")
  {
  }

  lemma TravelHeads(c: TransactionType)
    requires c == Travel
    ensures NoneBegins(Alts(c), "支")
  {
  }

  lemma HousingHeads(c: TransactionType)
    requires c == Housing
    ensures NoneBegins(Alts(c), "支")
  {
  }

  lemma UtilitiesHeads(c: TransactionType)
    requires c == Utilities
    ensures NoneBegins(Alts(c), "支")
  {
  }

  lemma TelecommunicationsHeads(c: TransactionType)
    requires c == Telecommunications
    ensures NoneBegins(Alts(c), "支")
  {
  }

  lemma FinancialServicesHeads(c: TransactionType)
    requires c == FinancialServices
    ensures NoneBegins(Alts(c), "")
  {
  }

  lemma SalaryHeads(c: TransactionType)
    requires c == Salary
    ensures NoneBegins(Alts(c), "")
  {
  }

  lemma InvestmentIncomeHeads(c: TransactionType)
    requires c == InvestmentIncome
    ensures NoneBegins(Alts(c), "")
  {
  }

  lemma InterestHeads(c: TransactionType)
    requires c == Interest
    ensures NoneBegins(Alts(c), "")
  {
  }

  lemma TaxRefundHeads(c: TransactionType)
    requires c == TaxRefund
    ensures NoneBegins(Alts(c), "")
  {
  }

  lemma CreditCardRepaymentHeads(c: TransactionType)
    requires c == CreditCardRepayment
    ensures NoneBegins(Alts(c), "")
  {
  }

  lemma CashWithdrawalHeads(c: TransactionType)
    requires c == CashWithdrawal
    ensures NoneBegins(Alts(c), "")
  {
  }

  lemma PaymentHeads(c: TransactionType)
    requires c == Payment
    ensures NoneBegins(Alts(c), "")
  {
  }

  lemma TransferHeads(c: TransactionType)
    requires c == Transfer
    ensures NoneBegins(Alts(c), "")
  {
  }

  lemma RechargeHeads(c: TransactionType)
    requires c == Recharge
    ensures NoneBegins(Alts(c), "")
  {
  }

  lemma RefundHeads(c: TransactionType)
    requires c == Refund
    ensures NoneBegins(Alts(c), "")
  {
  }

  /** No rule before the financial-services rule has an alternative that
      begins with '支', and neither rule before the shopping rule has one
      that begins with '超'. */
  lemma BeforeFinanceAvoidsPay(j: nat)
    requires j < 15
    ensures NoneBegins(Alts(Order()[j]), "支")
    ensures j < 2 ==> NoneBegins(Alts(Order()[j]), "超")
  {
    var c := Order()[j];
    if j == 0 { DiningHeads(c); NoneBeginsFewer(Alts(c), "支超", "支"); NoneBeginsFewer(Alts(c), "支超", "超"); }
    else if j == 1 { TransportationHeads(c); NoneBeginsFewer(Alts(c), "支超", "支"); NoneBeginsFewer(Alts(c), "支超", "超"); }
    else if j == 2 { ShoppingHeads(c); }
    else if j == 3 { EntertainmentHeads(c); }
    else if j == 4 { DailyNecessitiesHeads(c); }
    else if j == 5 { SupermarketHeads(c); }
    else if j == 6 { GroceryHeads(c); }
    else if j == 7 { DigitalProductsHeads(c); }
    else if j == 8 { ClothingHeads(c); }
    else if j == 9 { BeautyCosmeticsHeads(c); }
    else if j == 10 { BooksMediaHeads(c); }
    else if j == 11 { TravelHeads(c); }
    else if j == 12 { HousingHeads(c); }
    else if j == 13 { UtilitiesHeads(c); }
    else { TelecommunicationsHeads(c); }
  }

  /** No rule has an empty alternative. */
  lemma RuleNonEmpty(j: nat)
    requires j < |Order()|
    ensures NoneBegins(Alts(Order()[j]), "")
  {
    var c := Order()[j];
    if j < 15 {
      BeforeFinanceAvoidsPay(j);
      NoneBeginsFewer(Alts(c), "支", "");
    }
    else if j == 15 { FinancialServicesHeads(c); }
    else if j == 16 { SalaryHeads(c); }
    else if j == 17 { InvestmentIncomeHeads(c); }
    else if j == 18 { InterestHeads(c); }
    else if j == 19 { TaxRefundHeads(c); }
    else if j == 20 { CreditCardRepaymentHeads(c); }
    else if j == 21 { CashWithdrawalHeads(c); }
    else if j == 22 { PaymentHeads(c); }
    else if j == 23 { TransferHeads(c); }
    else if j == 24 { RechargeHeads(c); }
    else { RefundHeads(c); }
  }

  /** The positions the shadowing lemmas rely on. */
  lemma ShadowingOrder()
    ensures Payment !in Order()[..16] && Supermarket !in Order()[..3] && Order()[..1] == [Dining]
  {
  }

  lemma FinanceListsPay()
    ensures |Alts(FinancialServices)| > 7 && Alts(FinancialServices)[7] == "支付"
  {
  }

  lemma ShoppingListsSupermarketWord()
    ensures |Alts(Shopping)| > 9 && Alts(Shopping)[9] == "超市"
  {
  }

  lemma DiningListsKfc()
    ensures |Alts(Dining)| > 1 && Alts(Dining)[1] == "肯德基"
  {
  }

  /** A text that starts with '支' fails every rule before the
      financial-services rule. */
  lemma BeforeFinanceFail(t: string)
    requires t != [] && t[0] == '支'
    ensures forall i :: 0 <= i < 15 ==> !RuleMatches(t, Alts, Order()[i])
  {
    forall i | 0 <= i < 15 ensures !RuleMatches(t, Alts, Order()[i]) {
      BeforeFinanceAvoidsPay(i);
      NoneBeginsFails(t, Alts(Order()[i]), "支");
    }
  }

  /** A text that starts with '超' fails both rules before the shopping
      rule. */
  lemma BeforeShoppingFail(t: string)
    requires t != [] && t[0] == '超'
    ensures forall i :: 0 <= i < 2 ==> !RuleMatches(t, Alts, Order()[i])
  {
    forall i | 0 <= i < 2 ensures !RuleMatches(t, Alts, Order()[i]) {
      BeforeFinanceAvoidsPay(i);
      NoneBeginsFails(t, Alts(Order()[i]), "超");
    }
  }

  /** The shopping rule matches a summary that starts with '超市'. */
  lemma ShoppingMatchesSupermarketWord(s: string)
    requires StartsWith(s, "超市")
    ensures RuleMatches(Lower(s), Alts, Shopping)
  {
    ShoppingListsSupermarketWord();
    RuleMatchesAt(s, Shopping, 9, "超市");
  }

  /** A summary that starts with '支付' is FINANCIAL_SERVICES, never PAYMENT:
      the financial-services rule lists '支付' too, and no rule before it
      has an alternative beginning with '支'. */
  lemma PaymentShadowedByFinance(s: string)
    requires StartsWith(s, "支付")
    ensures Classify(s) == FinancialServices
    ensures StandardizeTransactionType(s) == "金融服务"
  {
    FinanceListsPay();
    RuleMatchesAt(s, FinancialServices, 7, "支付");
    var t := Lower(s);
    LowerKeepsPrefix(s, "支付");
    assert t[0] == "支付"[0];
    BeforeFinanceFail(t);
    ClassifyDecides(s, 15);
  }

  /** A summary that starts with '超市' is SHOPPING, never SUPERMARKET: the
      shopping rule lists '超市' and only the dining and transportation
      rules, none of whose alternatives begins with '超', come before it. */
  lemma SupermarketShadowedByShopping(s: string)
    requires StartsWith(s, "超市")
    ensures Classify(s) == Shopping
    ensures StandardizeTransactionType(s) == "购物消费"
  {
    ShoppingMatchesSupermarketWord(s);
    var t := Lower(s);
    LowerKeepsPrefix(s, "超市");
    assert t[0] == "超市"[0];
    BeforeShoppingFail(t);
    ClassifyDecides(s, 2);
  }

  /** The empty summary is UNKNOWN, labelled '未知类型': no rule has an empty
      alternative, so none matches at the start of ''. */
  lemma EmptySummaryUnknown()
    ensures Classify("") == Unknown
    ensures StandardizeTransactionType("") == "未知类型"
  {
    assert Lower("") == "";
    forall j | 0 <= j < |Order()| ensures !RuleMatches("", Alts, Order()[j]) {
      RuleNonEmpty(j);
      NoneBeginsFails("", Alts(Order()[j]), "");
    }
    TableCategories();
    ClassifyWithUnknown(Order(), Alts, "");
  }

  /** The first rule decides whenever it matches: a summary that starts
      with '肯德基' is DINING whatever follows. */
  lemma DiningPrefix(s: string)
    requires StartsWith(s, "肯德基")
    ensures Classify(s) == Dining
  {
    DiningListsKfc();
    RuleMatchesAt(s, Dining, 1, "肯德基");
    ClassifyNoLaterThan(s, 0);
    ShadowingOrder();
  }

  /** The one wildcard alternative, ' jd.com ', matches any character in
      place of its '.' except a newline: ' jd-com ' matches as well. */
  lemma WildcardMatchesAnyCharacter(t: string)
    ensures AltMatches(t, " jd.com ") <==>
      |t| >= 8 && t[..3] == " jd" && t[3] != '\n' && t[4..8] == "com "
  {
    var p := " jd.com ";
    if |t| >= 8 {
      FitsEach(t[..8], p);
      assert p[..3] == " jd" && p[3] == '.' && p[4..8] == "com ";
      if t[..3] == " jd" && t[3] != '\n' && t[4..8] == "com " {
        forall i | 0 <= i < 8 ensures CharMatches(t[..8][i], p[i]) {
          if i < 3 { assert t[..3][i] == p[..3][i]; }
          else if i > 3 { assert t[4..8][i - 4] == p[4..8][i - 4]; }
        }
      }
      if AltMatches(t, p) {
        assert forall i :: 0 <= i < 8 ==> CharMatches(t[..8][i], p[i]);
        assert t[..3] == p[..3];
        assert t[4..8] == p[4..8];
      }
    }
  }
}
