/**
  The compact JSON text of a value, and the proof that it can be read back in only one way.
  Numbers are integers, the only numbers the orchestrator stores.
 */
module JsonText {
  import opened Text
  import opened Json

  function HexDigit(d: nat): char
    requires d < 16
  {
    if d < 10 then ('0' as int + d) as char else ('a' as int + (d - 10)) as char
  }

  function EscapeChar(c: char): (s: string)
    ensures |s| > 0 && s[0] != '"'
  {
    if c == '"' then ['\\', '"']
    else if c == '\\' then ['\\', '\\']
    else if c as int == 8 then ['\\', 'b']
    else if c as int == 9 then ['\\', 't']
    else if c as int == 10 then ['\\', 'n']
    else if c as int == 12 then ['\\', 'f']
    else if c as int == 13 then ['\\', 'r']
    else if c as int < 32 then ['\\', 'u', '0', '0', HexDigit(c as int / 16), HexDigit(c as int % 16)]
    else [c]
  }

  function Escape(s: string): string {
    if s == "" then "" else EscapeChar(s[0]) + Escape(s[1..])
  }

  function Quote(s: string): string {
    ['"'] + Escape(s) + ['"']
  }

  function Print(v: Json): string
    decreases v, 2
  {
    match v
    case Null => "null"
    case Bool(b) => if b then "true" else "false"
    case Num(n) => Decimal(n)
    case Str(s) => Quote(s)
    case Arr(items) =>
      "[" + ArrayBody(items)
    case Obj(ms) =>
      "{" + ObjectBody(ms)
  }

  function PrintMember(m: Member): string
    decreases m, 0
  {
    Quote(m.key) + ":" + Print(m.value)
  }

  function PrintItems(items: seq<Json>): string
    decreases items, 0
  {
    if items == [] then "]" else "," + Print(items[0]) + PrintItems(items[1..])
  }

  function PrintMembers(ms: seq<Member>): string
    decreases ms, 0
  {
    if ms == [] then "}" else "," + PrintMember(ms[0]) + PrintMembers(ms[1..])
  }

  lemma EscapeCharPrefix(c: char, x: string, d: char, y: string)
    requires EscapeChar(c) + x == EscapeChar(d) + y
    ensures c == d && x == y
  {
    var p, q := EscapeChar(c), EscapeChar(d);
    var l, r := p + x, q + y;
    assert l[0] == p[0] && r[0] == q[0];
    if l[0] == '\\' {
      assert l[1] == p[1] && r[1] == q[1];
      if l[1] == 'u' {
        assert l[4] == p[4] && l[5] == p[5] && r[4] == q[4] && r[5] == q[5];
      }
    }
    assert c == d;
    assert l[|p|..] == x && r[|q|..] == y;
  }

  lemma EscapeHead(a: string, s: string)
    ensures var l := Escape(a) + (['"'] + s);
            && l[0] == (if a == "" then '"' else EscapeChar(a[0])[0])
            && (a != "" ==> l == EscapeChar(a[0]) + (Escape(a[1..]) + (['"'] + s)))
            && (a == "" ==> l[1..] == s)
  {
    hide EscapeChar;
    if a == "" {
      assert Escape(a) + (['"'] + s) == ['"'] + s;
    } else {
      HeadOfThree(EscapeChar(a[0]), Escape(a[1..]), ['"'] + s);
    }
  }

  lemma HeadOfThree(p: string, q: string, r: string)
    requires p != ""
    ensures (p + q) + r == p + (q + r) && ((p + q) + r)[0] == p[0]
  {}

  lemma {:induction false} EscapePrefix(a: string, s: string, b: string, t: string)
    requires Escape(a) + (['"'] + s) == Escape(b) + (['"'] + t)
    ensures a == b && s == t
  {
    EscapeHead(a, s);
    EscapeHead(b, t);
    if a != "" {
      EscapeCharPrefix(a[0], Escape(a[1..]) + (['"'] + s), b[0], Escape(b[1..]) + (['"'] + t));
      EscapePrefix(a[1..], s, b[1..], t);
      assert a == [a[0]] + a[1..] && b == [b[0]] + b[1..];
    }
  }

  lemma QuotePrefix(a: string, s: string, b: string, t: string)
    requires Quote(a) + s == Quote(b) + t
    ensures a == b && s == t
  {
    var x, y := Escape(a) + (['"'] + s), Escape(b) + (['"'] + t);
    assert Quote(a) + s == ['"'] + x && Quote(b) + t == ['"'] + y;
    assert (['"'] + x)[1..] == x && (['"'] + y)[1..] == y;
    EscapePrefix(a, s, b, t);
  }

  /** What may stand right after a value inside a text. */
  predicate Follow(s: string) {
    s == "" || s[0] in {',', ']', '}'}
  }

  function Tag(v: Json): nat {
    match v
    case Null => 0
    case Bool(b) => if b then 1 else 2
    case Num(_) => 3
    case Str(_) => 4
    case Arr(_) => 5
    case Obj(_) => 6
  }

  function TagOf(c: char): nat {
    match c
    case 'n' => 0
    case 't' => 1
    case 'f' => 2
    case '"' => 4
    case '[' => 5
    case '{' => 6
    case _ => 3
  }

  lemma FirstChar(v: Json, s: string)
    ensures Print(v) != "" && TagOf((Print(v) + s)[0]) == Tag(v) && (Print(v) + s)[0] !in {']', '}'}
  {
    if v.Num? {
      DecimalFacts(v.n);
    }
    assert (Print(v) + s)[0] == Print(v)[0];
  }

  /** A text that starts with the text of a value determines that value and what follows it. */
  lemma {:induction false} PrintPrefix(v: Json, s: string, w: Json, t: string)
    requires Follow(s) && Follow(t)
    requires Print(v) + s == Print(w) + t
    ensures v == w && s == t
    decreases v, 1
  {
    FirstChar(v, s);
    FirstChar(w, t);
    match v
    case Num(n) => NumeralPrefix(n, s, w.n, t);
    case Str(a) => QuotePrefix(a, s, w.s, t);
    case Arr(xs) => ItemsOfArrays(v, s, w, t);
    case Obj(ms) => MembersOfObjects(v, s, w, t);
    case _ =>
      assert Print(v) == Print(w);
      assert (Print(v) + s)[|Print(v)|..] == s && (Print(w) + t)[|Print(w)|..] == t;
  }

  lemma Regroup(p: string, a: string, b: string, s: string)
    ensures p + a + b + s == p + (a + (b + s))
  {
  }

  lemma Assoc(p: string, a: string, s: string)
    ensures p + a + s == p + (a + s)
  {
  }

  lemma CancelLeft(p: string, x: string, y: string)
    requires p + x == p + y
    ensures x == y
  {
    assert (p + x)[|p|..] == x && (p + y)[|p|..] == y;
  }

  /** The text of the items of an array, after its bracket. */
  function ArrayBody(items: seq<Json>): string
    decreases items, 1
  {
    if items == [] then "]" else Print(items[0]) + PrintItems(items[1..])
  }

  lemma {:induction false} ItemsOfArrays(v: Json, s: string, w: Json, t: string)
    requires v.Arr? && w.Arr? && Print(v) + s == Print(w) + t
    ensures v == w && s == t
    decreases v, 0
  {
    var xs, ys := v.items, w.items;
    Assoc("[", ArrayBody(xs), s);
    Assoc("[", ArrayBody(ys), t);
    CancelLeft("[", ArrayBody(xs) + s, ArrayBody(ys) + t);
    ArrayBodyHead(xs, s);
    ArrayBodyHead(ys, t);
    if xs == [] {
      CancelLeft("]", s, t);
    } else {
      var x, y := PrintItems(xs[1..]), PrintItems(ys[1..]);
      Assoc(Print(xs[0]), x, s);
      Assoc(Print(ys[0]), y, t);
      ItemsFollow(xs[1..], s);
      ItemsFollow(ys[1..], t);
      PrintPrefix(xs[0], x + s, ys[0], y + t);
      ItemsPrefix(xs[1..], s, ys[1..], t);
      assert xs == [xs[0]] + xs[1..] && ys == [ys[0]] + ys[1..];
    }
  }

  lemma ArrayBodyHead(items: seq<Json>, s: string)
    ensures ArrayBody(items) != ""
    ensures (ArrayBody(items) + s)[0] == ']' <==> items == []
  {
    if items != [] {
      FirstChar(items[0], PrintItems(items[1..]) + s);
      Assoc(Print(items[0]), PrintItems(items[1..]), s);
    }
  }

  lemma ItemsFollow(items: seq<Json>, s: string)
    ensures var l := PrintItems(items) + s; Follow(l) && l != "" && (l[0] == ']' <==> items == [])
  {
  }

  lemma {:induction false} ItemsPrefix(xs: seq<Json>, s: string, ys: seq<Json>, t: string)
    requires PrintItems(xs) + s == PrintItems(ys) + t
    ensures xs == ys && s == t
    decreases xs, 0
  {
    ItemsFollow(xs, s);
    ItemsFollow(ys, t);
    if xs == [] {
      CancelLeft("]", s, t);
    } else {
      var x, y := PrintItems(xs[1..]), PrintItems(ys[1..]);
      Regroup(",", Print(xs[0]), x, s);
      Regroup(",", Print(ys[0]), y, t);
      CancelLeft(",", Print(xs[0]) + (x + s), Print(ys[0]) + (y + t));
      ItemsFollow(xs[1..], s);
      ItemsFollow(ys[1..], t);
      PrintPrefix(xs[0], x + s, ys[0], y + t);
      ItemsPrefix(xs[1..], s, ys[1..], t);
      assert xs == [xs[0]] + xs[1..] && ys == [ys[0]] + ys[1..];
    }
  }

  /** The text of the members of an object, after its brace. */
  function ObjectBody(ms: seq<Member>): string
    decreases ms, 1
  {
    if ms == [] then "}" else PrintMember(ms[0]) + PrintMembers(ms[1..])
  }

  lemma {:induction false} MembersOfObjects(v: Json, s: string, w: Json, t: string)
    requires v.Obj? && w.Obj? && Print(v) + s == Print(w) + t
    ensures v == w && s == t
    decreases v, 0
  {
    var ms, ns := v.members, w.members;
    Assoc("{", ObjectBody(ms), s);
    Assoc("{", ObjectBody(ns), t);
    CancelLeft("{", ObjectBody(ms) + s, ObjectBody(ns) + t);
    ObjectBodyHead(ms, s);
    ObjectBodyHead(ns, t);
    if ms == [] {
      CancelLeft("}", s, t);
    } else {
      var x, y := PrintMembers(ms[1..]), PrintMembers(ns[1..]);
      Assoc(PrintMember(ms[0]), x, s);
      Assoc(PrintMember(ns[0]), y, t);
      MembersFollow(ms[1..], s);
      MembersFollow(ns[1..], t);
      MemberPrefix(ms[0], x + s, ns[0], y + t);
      MembersPrefix(ms[1..], s, ns[1..], t);
      assert ms == [ms[0]] + ms[1..] && ns == [ns[0]] + ns[1..];
    }
  }

  lemma ObjectBodyHead(ms: seq<Member>, s: string)
    ensures ObjectBody(ms) != ""
    ensures (ObjectBody(ms) + s)[0] == '}' <==> ms == []
  {
  }

  lemma MembersFollow(ms: seq<Member>, s: string)
    ensures var l := PrintMembers(ms) + s; Follow(l) && l != "" && (l[0] == '}' <==> ms == [])
  {
  }

  lemma {:induction false} MembersPrefix(ms: seq<Member>, s: string, ns: seq<Member>, t: string)
    requires PrintMembers(ms) + s == PrintMembers(ns) + t
    ensures ms == ns && s == t
    decreases ms, 0
  {
    MembersFollow(ms, s);
    MembersFollow(ns, t);
    if ms == [] {
      CancelLeft("}", s, t);
    } else {
      var x, y := PrintMembers(ms[1..]), PrintMembers(ns[1..]);
      Regroup(",", PrintMember(ms[0]), x, s);
      Regroup(",", PrintMember(ns[0]), y, t);
      CancelLeft(",", PrintMember(ms[0]) + (x + s), PrintMember(ns[0]) + (y + t));
      MembersFollow(ms[1..], s);
      MembersFollow(ns[1..], t);
      MemberPrefix(ms[0], x + s, ns[0], y + t);
      MembersPrefix(ms[1..], s, ns[1..], t);
      assert ms == [ms[0]] + ms[1..] && ns == [ns[0]] + ns[1..];
    }
  }

  lemma {:induction false} MemberPrefix(m: Member, x: string, n: Member, y: string)
    requires Follow(x) && Follow(y)
    requires PrintMember(m) + x == PrintMember(n) + y
    ensures m == n && x == y
    decreases m, 0
  {
    Regroup(Quote(m.key), ":", Print(m.value), x);
    Regroup(Quote(n.key), ":", Print(n.value), y);
    QuotePrefix(m.key, ":" + (Print(m.value) + x), n.key, ":" + (Print(n.value) + y));
    CancelLeft(":", Print(m.value) + x, Print(n.value) + y);
    PrintPrefix(m.value, x, n.value, y);
  }

  /** Two values with one text are one value, so storing the text loses nothing. */
  lemma PrintInjective(v: Json, w: Json)
    requires Print(v) == Print(w)
    ensures v == w
  {
    assert Print(v) + "" == Print(w) + "";
    PrintPrefix(v, "", w, "");
  }

  // ---- the grammar of the text -------------------------------------------

  /** The parts with commas between them. */
  function Joined(parts: seq<string>): string {
    if parts == [] then "" else if |parts| == 1 then parts[0] else parts[0] + "," + Joined(parts[1..])
  }

  lemma ScalarsHold(b: bool, n: int, s: string)
    ensures Print(Null) == "null" && Print(Bool(true)) == "true" && Print(Bool(false)) == "false"
    ensures Print(Num(n)) == Decimal(n)
    ensures Print(Str(s)) == "\"" + Escape(s) + "\""
  {}

  predicate IsPlain(c: char) {
    c as int >= 32 && c != '"' && c != '\\'
  }

  /** Text without quotes, backslashes and control characters stands for itself. */
  lemma {:induction false} PlainTextHolds(s: string)
    requires forall i :: 0 <= i < |s| ==> IsPlain(s[i])
    ensures Escape(s) == s
  {
    if s != "" {
      PlainTextHolds(s[1..]);
      assert EscapeChar(s[0]) == [s[0]] && s == [s[0]] + s[1..];
    }
  }

  /** Quotes, backslashes and line ends are escaped by a backslash. */
  lemma EscapesHold()
    ensures Escape("\"") == "\\\"" && Escape("\\") == "\\\\" && Escape("\n") == "\\n"
  {
    SingleEscape('"');
    SingleEscape('\\');
    SingleEscape('\n');
  }

  lemma SingleEscape(c: char)
    ensures Escape([c]) == EscapeChar(c)
  {
    assert [c][1..] == "";
  }

  lemma Commas(text: string, rest: string, end: string)
    ensures ("," + text) + ("," + rest + end) == "," + (text + "," + rest) + end
    ensures text + ("," + rest + end) == (text + "," + rest) + end
    ensures "" + end == end
  {}

  lemma JoinedStep(texts: seq<string>)
    requires texts != []
    ensures Joined(texts) == if |texts| == 1 then texts[0] else texts[0] + "," + Joined(texts[1..])
  {}

  lemma {:induction false} ItemsHold(items: seq<Json>, texts: seq<string>)
    requires |texts| == |items| && forall i :: 0 <= i < |items| ==> texts[i] == Print(items[i])
    ensures PrintItems(items) == if items == [] then "]" else "," + Joined(texts) + "]"
  {
    hide Print, Joined;
    if items != [] {
      ItemsHold(items[1..], texts[1..]);
      JoinedStep(texts);
      Commas(texts[0], Joined(texts[1..]), "]");
    }
  }

  /** An array is its items' texts with commas between them, in brackets. */
  lemma ArrayHolds(items: seq<Json>, texts: seq<string>)
    requires |texts| == |items| && forall i :: 0 <= i < |items| ==> texts[i] == Print(items[i])
    ensures Print(Arr(items)) == "[" + Joined(texts) + "]"
  {
    ArrayBodyHolds(items, texts);
    assert Print(Arr(items)) == "[" + ArrayBody(items);
  }

  lemma ArrayBodyHolds(items: seq<Json>, texts: seq<string>)
    requires |texts| == |items| && forall i :: 0 <= i < |items| ==> texts[i] == Print(items[i])
    ensures ArrayBody(items) == Joined(texts) + "]"
  {
    hide Print, PrintItems, Joined;
    if items == [] {
      NothingJoined();
    } else {
      ItemsHold(items[1..], texts[1..]);
      JoinedStep(texts);
      Commas(texts[0], Joined(texts[1..]), "]");
    }
  }

  lemma NothingJoined()
    ensures Joined([]) == "" && forall s: string :: "" + s == s
  {}

  lemma {:induction false} MembersHold(ms: seq<Member>, texts: seq<string>)
    requires |texts| == |ms| && forall i :: 0 <= i < |ms| ==> texts[i] == PrintMember(ms[i])
    ensures PrintMembers(ms) == if ms == [] then "}" else "," + Joined(texts) + "}"
  {
    hide PrintMember, Joined;
    if ms != [] {
      MembersHold(ms[1..], texts[1..]);
      JoinedStep(texts);
      Commas(texts[0], Joined(texts[1..]), "}");
    }
  }

  lemma ObjectBodyHolds(ms: seq<Member>, texts: seq<string>)
    requires |texts| == |ms| && forall i :: 0 <= i < |ms| ==> texts[i] == PrintMember(ms[i])
    ensures ObjectBody(ms) == Joined(texts) + "}"
  {
    hide PrintMember, PrintMembers, Joined;
    if ms == [] {
      NothingJoined();
    } else {
      MembersHold(ms[1..], texts[1..]);
      JoinedStep(texts);
      Commas(texts[0], Joined(texts[1..]), "}");
    }
  }

  lemma MemberHolds(m: Member)
    ensures PrintMember(m) == Print(Str(m.key)) + ":" + Print(m.value)
  {}

  /** An object is its members, each a quoted key, a colon and its value's text, with commas between them, in braces. */
  lemma ObjectHolds(ms: seq<Member>, texts: seq<string>)
    requires |texts| == |ms| && forall i :: 0 <= i < |ms| ==> texts[i] == Print(Str(ms[i].key)) + ":" + Print(ms[i].value)
    ensures Print(Obj(ms)) == "{" + Joined(texts) + "}"
  {
    hide PrintMember, ObjectBody, Joined;
    forall i | 0 <= i < |ms|
      ensures texts[i] == PrintMember(ms[i])
    {
      MemberHolds(ms[i]);
    }
    ObjectBodyHolds(ms, texts);
    assert Print(Obj(ms)) == "{" + ObjectBody(ms);
  }
}
