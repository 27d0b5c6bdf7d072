// Decimal numerals and the colon-separated texts built from them: lease values, receiver keys,
// directory keys, lease keys and discovery member keys.
module TextForms {
  import opened Common

  // ----- decimal numerals (std::to_string, std::stoul) -----

  function Digit(d: nat): (c: char)
    requires d < 10
    ensures '0' <= c <= '9'
  {
    '0' + d as char
  }

  predicate IsDigit(c: char) {
    '0' <= c <= '9'
  }

  predicate AllDigits(s: string) {
    forall i :: 0 <= i < |s| ==> IsDigit(s[i])
  }

  function ToText(n: nat): (s: string)
    ensures |s| > 0 && AllDigits(s)
  {
    if n < 10 then [Digit(n)] else ToText(n / 10) + [Digit(n % 10)]
  }

  function DigitsValue(s: string): nat
    requires AllDigits(s)
  {
    if s == "" then 0
    else 10 * DigitsValue(s[..|s| - 1]) + (s[|s| - 1] as nat - '0' as nat)
  }

  lemma {:induction false} ValueOfToText(n: nat)
    ensures DigitsValue(ToText(n)) == n
  {
    if n >= 10 {
      ValueOfToText(n / 10);
      assert ToText(n)[..|ToText(n)| - 1] == ToText(n / 10);
    }
  }

  lemma ToTextInjective(m: nat, n: nat)
    ensures ToText(m) == ToText(n) <==> m == n
  {
    ValueOfToText(m);
    ValueOfToText(n);
  }

  function CountLeading(s: string, p: char -> bool): (n: nat)
    ensures n <= |s|
    ensures forall i :: 0 <= i < n ==> p(s[i])
    ensures n < |s| ==> !p(s[n])
  {
    if s == "" || !p(s[0]) then 0 else 1 + CountLeading(s[1..], p)
  }

  // isspace in the C locale.
  predicate IsSpace(c: char) {
    c == ' ' || 9 as char <= c <= 13 as char
  }

  // std::stoul: leading white space, an optional sign, then the longest run of digits; None is the
  // exception (no digit at all, or a magnitude that does not fit 64 bits). A minus sign wraps round.
  function Stoul(text: string): Option<nat> {
    var body := text[CountLeading(text, c => IsSpace(c))..];
    var negative := body != "" && body[0] == '-';
    var signed := negative || (body != "" && body[0] == '+');
    var digits := if signed then body[1..] else body;
    var run := digits[..CountLeading(digits, c => IsDigit(c))];
    if run == "" then None
    else
      var v := DigitsValue(run);
      if v >= TWO_TO_64 then None
      else if negative then Some((TWO_TO_64 - v) % TWO_TO_64)
      else Some(v)
  }

  lemma StoulOfToText(n: nat)
    requires n < TWO_TO_64
    ensures Stoul(ToText(n)) == Some(n)
  {
    ValueOfToText(n);
    var t := ToText(n);
    assert IsDigit(t[0]);
    assert CountLeading(t, c => IsSpace(c)) == 0;
    assert t[0..] == t;
    assert t[..CountLeading(t, c => IsDigit(c))] == t;
  }

  // ----- colon separated fields -----

  predicate ColonFree(s: string) {
    forall i :: 0 <= i < |s| ==> s[i] != ':'
  }

  lemma ToTextColonFree(n: nat)
    ensures ColonFree(ToText(n))
  {
    assert forall i :: 0 <= i < |ToText(n)| ==> IsDigit(ToText(n)[i]);
  }

  // std::getline(stream, line, ':') on the rest of a string stream: fails only when nothing is left
  // to extract; otherwise the text up to the first colon, which is consumed.
  function GetLine(rest: string): Option<(string, string)> {
    if rest == "" then None
    else
      var i := CountLeading(rest, c => c != ':');
      Some((rest[..i], if i < |rest| then rest[i + 1..] else ""))
  }

  lemma GetLineOfField(field: string, tail: string)
    requires ColonFree(field)
    ensures GetLine(field + ":" + tail) == Some((field, tail))
  {
    var s := field + ":" + tail;
    assert forall i :: 0 <= i < |field| ==> s[i] == field[i];
    assert s[|field|] == ':';
    var i := CountLeading(s, c => c != ':');
    assert i == |field|;
    assert s[..i] == field && s[i + 1..] == tail;
  }

  lemma GetLineOfLastField(field: string)
    requires ColonFree(field) && field != ""
    ensures GetLine(field) == Some((field, ""))
  {
    var i := CountLeading(field, c => c != ':');
    assert i == |field|;
    assert field[..i] == field;
  }

  // Two texts with a colon free first field agree exactly when both parts agree.
  lemma FirstFieldUnique(a: string, x: string, b: string, y: string)
    requires ColonFree(a) && ColonFree(b)
    ensures a + ":" + x == b + ":" + y <==> a == b && x == y
  {
    GetLineOfField(a, x);
    GetLineOfField(b, y);
  }

  // Two texts with a colon free last field agree exactly when both parts agree.
  lemma LastFieldUnique(x: string, a: string, y: string, b: string)
    requires ColonFree(a) && ColonFree(b)
    ensures x + ":" + a == y + ":" + b <==> x == y && a == b
  {
    var s, t := x + ":" + a, y + ":" + b;
    if s == t {
      assert s[|x|] == ':' && t[|y|] == ':';
      assert forall k :: |x| < k < |s| ==> s[k] == a[k - |x| - 1];
      assert forall k :: |y| < k < |t| ==> t[k] == b[k - |y| - 1];
      assert s[..|x|] == x && t[..|y|] == y;
      assert s[|x| + 1..] == a && t[|y| + 1..] == b;
    }
  }

  // ----- lease values -----

  datatype LeaseOwner = LeaseOwner(serviceType: nat, instanceId: nat, token: string)

  predicate FitsUint32(o: LeaseOwner) {
    o.serviceType < TWO_TO_32 && o.instanceId < TWO_TO_32
  }

  function BuildValue(o: LeaseOwner): string {
    ToText(o.serviceType) + ":" + (ToText(o.instanceId) + ":" + o.token)
  }

  // The three colon separated fields of a lease value; None when one of them cannot be extracted.
  function Fields(value: string): Option<(string, string, string)> {
    match GetLine(value)
    case None => None
    case Some((first, rest)) =>
      match GetLine(rest)
      case None => None
      case Some((second, rest')) =>
        match GetLine(rest')
        case None => None
        case Some((third, _)) => Some((first, second, third))
  }

  // Both numbers must be readable; they are cast to 32 bits.
  function ReadOwner(serviceType: Option<nat>, instanceId: Option<nat>, token: string): Option<LeaseOwner> {
    if serviceType.None? || instanceId.None? then None
    else Some(LeaseOwner(serviceType.value % TWO_TO_32, instanceId.value % TWO_TO_32, token))
  }

  function ParseValue(value: string): Option<LeaseOwner> {
    match Fields(value)
    case None => None
    case Some((serviceText, instanceText, token)) =>
      ReadOwner(Stoul(serviceText), Stoul(instanceText), token)
  }

  function GenerateToken(player: PlayerId, instanceId: nat, nowMs: nat): string {
    ToText(player) + "-" + ToText(instanceId) + "-" + ToText(nowMs)
  }

  lemma FieldsOfJoined(first: string, second: string, tail: string)
    requires ColonFree(first) && ColonFree(second)
    ensures Fields(first + ":" + (second + ":" + tail)) ==
            match GetLine(tail)
            case None => None
            case Some((third, _)) => Some((first, second, third))
  {
    GetLineOfField(first, second + ":" + tail);
    GetLineOfField(second, tail);
  }

  lemma ReadOwnerOfFitting(o: LeaseOwner, token: string)
    requires FitsUint32(o)
    ensures ReadOwner(Some(o.serviceType), Some(o.instanceId), token) == Some(o.(token := token))
  {
  }

  // Both ids are read back whatever the token is; the token is read up to its first colon.
  lemma ParseOfBuiltIds(o: LeaseOwner)
    requires FitsUint32(o)
    ensures GetLine(o.token).None? ==> ParseValue(BuildValue(o)) == None
    ensures GetLine(o.token).Some? ==> ParseValue(BuildValue(o)) == Some(o.(token := GetLine(o.token).value.0))
  {
    var serviceText, instanceText := ToText(o.serviceType), ToText(o.instanceId);
    ToTextColonFree(o.serviceType);
    ToTextColonFree(o.instanceId);
    FieldsOfJoined(serviceText, instanceText, o.token);
    if GetLine(o.token).Some? {
      StoulOfToText(o.serviceType);
      StoulOfToText(o.instanceId);
      ReadOwnerOfFitting(o, GetLine(o.token).value.0);
    }
  }

  // Reading back what was built: the value survives, for every pair of 32-bit ids, exactly when the
  // token is a non-empty text without a colon.
  lemma ParseOfBuild(o: LeaseOwner)
    requires FitsUint32(o)
    ensures ParseValue(BuildValue(o)) == Some(o) <==> o.token != "" && ColonFree(o.token)
  {
    ParseOfBuiltIds(o);
    if o.token != "" && ColonFree(o.token) {
      GetLineOfLastField(o.token);
    } else if o.token != "" {
      var i := CountLeading(o.token, c => c != ':');
      assert |o.token[..i]| < |o.token|;
    }
  }

  // Every token the service generates is one that survives.
  lemma GeneratedTokenSurvives(player: PlayerId, serviceType: nat, instanceId: nat, nowMs: nat)
    requires serviceType < TWO_TO_32 && instanceId < TWO_TO_32
    ensures var o := LeaseOwner(serviceType, instanceId, GenerateToken(player, instanceId, nowMs));
            ParseValue(BuildValue(o)) == Some(o)
  {
    var token := GenerateToken(player, instanceId, nowMs);
    ToTextColonFree(player);
    ToTextColonFree(instanceId);
    ToTextColonFree(nowMs);
    assert ColonFree(token) && token != "";
    ParseOfBuild(LeaseOwner(serviceType, instanceId, token));
  }

  // A lease value determines its owner, so games with different ids never write the same value.
  lemma BuildValueInjective(a: LeaseOwner, b: LeaseOwner)
    ensures BuildValue(a) == BuildValue(b) <==> a == b
  {
    ToTextColonFree(a.serviceType);
    ToTextColonFree(a.instanceId);
    ToTextColonFree(b.serviceType);
    ToTextColonFree(b.instanceId);
    FirstFieldUnique(ToText(a.serviceType), ToText(a.instanceId) + ":" + a.token,
                     ToText(b.serviceType), ToText(b.instanceId) + ":" + b.token);
    FirstFieldUnique(ToText(a.instanceId), a.token, ToText(b.instanceId), b.token);
    ToTextInjective(a.serviceType, b.serviceType);
    ToTextInjective(a.instanceId, b.instanceId);
  }

  // ----- keys -----

  function LeaseKey(prefix: string, player: PlayerId): string {
    prefix + ToText(player)
  }

  lemma LeaseKeyInjective(prefix: string, p: PlayerId, q: PlayerId)
    ensures LeaseKey(prefix, p) == LeaseKey(prefix, q) <==> p == q
  {
    assert LeaseKey(prefix, p)[|prefix|..] == ToText(p);
    assert LeaseKey(prefix, q)[|prefix|..] == ToText(q);
    ToTextInjective(p, q);
  }

  // The receiver types of the IPC layer with the numbers the key text uses.
  datatype ReceiverType = ProcessReceiver | PlayerReceiver | SystemReceiver | ServiceReceiver | GroupReceiver
  datatype ReceiverAddress = ReceiverAddress(kind: ReceiverType, hi: nat, lo: nat)

  function ReceiverTypeNumber(t: ReceiverType): nat {
    match t
    case ProcessReceiver => 1
    case PlayerReceiver => 2
    case SystemReceiver => 3
    case ServiceReceiver => 4
    case GroupReceiver => 5
  }

  function ReceiverKey(r: ReceiverAddress): string {
    ToText(ReceiverTypeNumber(r.kind)) + ":" + (ToText(r.hi) + ":" + ToText(r.lo))
  }

  lemma ReceiverKeyInjective(a: ReceiverAddress, b: ReceiverAddress)
    ensures ReceiverKey(a) == ReceiverKey(b) <==> a == b
  {
    var ka, kb := ToText(ReceiverTypeNumber(a.kind)), ToText(ReceiverTypeNumber(b.kind));
    ToTextColonFree(ReceiverTypeNumber(a.kind));
    ToTextColonFree(ReceiverTypeNumber(b.kind));
    ToTextColonFree(a.hi);
    ToTextColonFree(b.hi);
    FirstFieldUnique(ka, ToText(a.hi) + ":" + ToText(a.lo), kb, ToText(b.hi) + ":" + ToText(b.lo));
    FirstFieldUnique(ToText(a.hi), ToText(a.lo), ToText(b.hi), ToText(b.lo));
    ToTextInjective(ReceiverTypeNumber(a.kind), ReceiverTypeNumber(b.kind));
    ToTextInjective(a.hi, b.hi);
    ToTextInjective(a.lo, b.lo);
  }

  datatype Account = Account(platform: string, accountId: string, areaId: nat)

  function DirectoryKey(a: Account): string {
    a.platform + ":" + a.accountId + ":" + ToText(a.areaId)
  }

  // When two accounts share a directory key: the same area, and the same joined platform and account
  // text. With colon free platforms that means the same account.
  lemma DirectoryKeyCollision(a: Account, b: Account)
    ensures DirectoryKey(a) == DirectoryKey(b) <==>
            a.areaId == b.areaId && a.platform + ":" + a.accountId == b.platform + ":" + b.accountId
    ensures ColonFree(a.platform) && ColonFree(b.platform) ==>
            (DirectoryKey(a) == DirectoryKey(b) <==> a == b)
  {
    ToTextColonFree(a.areaId);
    ToTextColonFree(b.areaId);
    LastFieldUnique(a.platform + ":" + a.accountId, ToText(a.areaId),
                    b.platform + ":" + b.accountId, ToText(b.areaId));
    ToTextInjective(a.areaId, b.areaId);
    if ColonFree(a.platform) && ColonFree(b.platform) {
      FirstFieldUnique(a.platform, a.accountId, b.platform, b.accountId);
    }
  }

  // Two platforms can collide at all exactly if one with its colon begins the other with its colon.
  lemma PlatformsCollide(p: string, q: string)
    ensures (exists x, y :: p + ":" + x == q + ":" + y) <==> p + ":" <= q + ":" || q + ":" <= p + ":"
  {
    if p + ":" <= q + ":" {
      var x := (q + ":")[|p + ":"|..];
      assert p + ":" + x == q + ":" + "";
    } else if q + ":" <= p + ":" {
      var y := (p + ":")[|q + ":"|..];
      assert p + ":" + "" == q + ":" + y;
    } else {
      forall x, y
        ensures p + ":" + x != q + ":" + y
      {
        BeginsWith(p + ":", x, q + ":", y);
      }
    }
  }

  // Of two beginnings of one text, one begins the other.
  lemma BeginsWith(a: string, x: string, b: string, y: string)
    ensures a + x == b + y ==> a <= b || b <= a
  {
    if a + x == b + y {
      if |a| <= |b| {
        assert (a + x)[..|a|] == a && (b + y)[..|a|] == b[..|a|];
      } else {
        assert (a + x)[..|b|] == a[..|b|] && (b + y)[..|b|] == b;
      }
    }
  }

  // A colon in a platform name makes two different accounts one player.
  lemma DirectoryKeyCollisionExample()
    ensures var a, b := Account("p:q", "r", 1), Account("p", "q:r", 1);
            a != b && DirectoryKey(a) == DirectoryKey(b)
  {
    var a, b := Account("p:q", "r", 1), Account("p", "q:r", 1);
    assert a.platform != b.platform;
    assert "p:q" + ":" + "r" == "p" + ":" + "q:r";
  }

  // The texts as other programs on the same servers see them.
  lemma FormatExamples()
    ensures BuildValue(LeaseOwner(20, 3, "7-3-99")) == "20:3:7-3-99"
    ensures GenerateToken(7, 3, 99) == "7-3-99"
    ensures LeaseKey("player:lease:", 10) == "player:lease:10"
    ensures ReceiverKey(ReceiverAddress(PlayerReceiver, 10, 0)) == "2:10:0"
    ensures DirectoryKey(Account("steam", "me", 2)) == "steam:me:2"
  {
    assert ToText(20) == "20" && ToText(10) == "10" && ToText(99) == "99";
    assert ToText(7) == "7" && ToText(3) == "3" && ToText(2) == "2" && ToText(0) == "0";
  }
}
