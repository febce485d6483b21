/** Identifiers of stacks, resources and events, and their ARNs (heat/common/identifier.py). */
module Identifiers {
  import opened Wrappers

  // ---- Byte strings ----

  /** A byte string: every character is one byte. */
  predicate Bytes(s: string) {
    forall i :: 0 <= i < |s| ==> s[i] as int < 256
  }

  /** Splitting at c, with the field that has been read so far. */
  function SplitOn(field: string, s: string, c: char): (r: seq<string>)
    ensures r != []
    decreases |s|
  {
    if s == "" then [field]
    else if s[0] == c then [field] + SplitOn("", s[1..], c)
    else SplitOn(field + [s[0]], s[1..], c)
  }

  /** Python's s.split(c). */
  function Split(s: string, c: char): (r: seq<string>)
    ensures r != []
  {
    SplitOn("", s, c)
  }

  /** Python's c.join(fields). */
  function Join(fields: seq<string>, c: char): string {
    if fields == [] then "" else if |fields| == 1 then fields[0] else fields[0] + ([c] + Join(fields[1..], c))
  }

  lemma {:induction false} SplitOnField(field: string, a: string, c: char)
    requires c !in a
    ensures SplitOn(field, a, c) == [field + a]
    decreases |a|
  {
    if a == "" {
      assert field + a == field;
    } else {
      assert c !in a[1..];
      SplitOnField(field + [a[0]], a[1..], c);
      assert field + [a[0]] + a[1..] == field + a;
    }
  }

  lemma SplitField(a: string, c: char)
    requires c !in a
    ensures Split(a, c) == [a]
  {
    SplitOnField("", a, c);
    assert "" + a == a;
  }

  lemma {:induction false} SplitOnRest(field: string, a: string, rest: string, c: char)
    requires rest != "" && rest[0] == c
    ensures SplitOn(field, a + rest, c) == SplitOn(field, a, c) + SplitOn("", rest[1..], c)
    decreases |a|
  {
    if a == "" {
      assert a + rest == rest;
    } else {
      assert (a + rest)[1..] == a[1..] + rest;
      if a[0] == c {
        SplitOnRest("", a[1..], rest, c);
      } else {
        SplitOnRest(field + [a[0]], a[1..], rest, c);
      }
    }
  }

  lemma SplitRest(a: string, rest: string, c: char)
    requires rest != "" && rest[0] == c
    ensures Split(a + rest, c) == Split(a, c) + Split(rest[1..], c)
  {
    SplitOnRest("", a, rest, c);
  }

  lemma SplitAppend(a: string, b: string, c: char)
    ensures Split(a + ([c] + b), c) == Split(a, c) + Split(b, c)
  {
    SplitRest(a, [c] + b, c);
    assert ([c] + b)[1..] == b;
  }

  lemma {:induction false} JoinSplitOn(field: string, s: string, c: char)
    ensures Join(SplitOn(field, s, c), c) == field + s
    decreases |s|
  {
    if s == "" {
      assert field + s == field;
    } else if s[0] == c {
      var rest := SplitOn("", s[1..], c);
      JoinSplitOn("", s[1..], c);
      assert ([field] + rest)[1..] == rest;
      assert field + ([c] + ("" + s[1..])) == field + s;
    } else {
      JoinSplitOn(field + [s[0]], s[1..], c);
      assert field + [s[0]] + s[1..] == field + s;
    }
  }

  lemma JoinSplit(s: string, c: char)
    ensures Join(Split(s, c), c) == s
  {
    JoinSplitOn("", s, c);
    assert "" + s == s;
  }

  lemma {:induction false} NoFieldHolds(field: string, s: string, c: char, k: nat)
    requires c !in field && k < |SplitOn(field, s, c)|
    ensures c !in SplitOn(field, s, c)[k]
    decreases |s|
  {
    if s != "" {
      if s[0] != c {
        NoFieldHolds(field + [s[0]], s[1..], c, k);
      } else if k > 0 {
        NoFieldHolds("", s[1..], c, k - 1);
      }
    }
  }

  // ---- Percent-encoding, section 2.1 of RFC 3986 ----

  const HEX := "0123456789ABCDEF"

  function HexValue(c: char): int {
    if '0' <= c <= '9' then c as int - '0' as int
    else if 'A' <= c <= 'F' then c as int - 'A' as int + 10
    else if 'a' <= c <= 'f' then c as int - 'a' as int + 10
    else -1
  }

  predicate Unreserved(c: char) {
    'a' <= c <= 'z' || 'A' <= c <= 'Z' || '0' <= c <= '9' || c == '_' || c == '.' || c == '-'
  }

  function QuoteByte(c: char, slash: bool): string
    requires c as int < 256
  {
    if Unreserved(c) || (slash && c == '/') then [c] else ['%', HEX[c as int / 16], HEX[c as int % 16]]
  }

  /** urllib.quote, with '/' as the one more safe character or with none. */
  function Quote(s: string, slash: bool): string
    requires Bytes(s)
  {
    if s == "" then "" else QuoteByte(s[0], slash) + Quote(s[1..], slash)
  }

  /** urllib.unquote: a percent sign that two hexadecimal digits do not follow stands for itself. */
  function Unquote(s: string): string {
    if s == "" then ""
    else if s[0] == '%' && |s| >= 3 && HexValue(s[1]) >= 0 && HexValue(s[2]) >= 0 then
      [(16 * HexValue(s[1]) + HexValue(s[2])) as char] + Unquote(s[3..])
    else [s[0]] + Unquote(s[1..])
  }

  lemma HexDigits(n: int)
    requires 0 <= n < 16
    ensures HexValue(HEX[n]) == n && Unreserved(HEX[n])
  {
  }

  lemma {:induction false} UnquoteByte(c: char, slash: bool, rest: string)
    requires c as int < 256
    ensures Unquote(QuoteByte(c, slash) + rest) == [c] + Unquote(rest)
  {
    var q := QuoteByte(c, slash);
    if |q| == 1 {
      assert (q + rest)[1..] == rest;
    } else {
      var n := c as int;
      HexDigits(n / 16);
      HexDigits(n % 16);
      assert (q + rest)[3..] == rest;
      assert (16 * (n / 16) + n % 16) as char == c;
    }
  }

  lemma {:induction false} UnquoteQuote(s: string, slash: bool)
    requires Bytes(s)
    ensures Unquote(Quote(s, slash)) == s
  {
    if s != "" {
      UnquoteQuote(s[1..], slash);
      UnquoteByte(s[0], slash, Quote(s[1..], slash));
    }
  }

  /**
    Letters, digits, '_', '.' and '-', and slashes where they are safe, stay as
    they are; all else becomes three characters.
  */
  lemma {:induction false} QuoteLeavesAlone(s: string, slash: bool)
    requires Bytes(s)
    ensures |s| <= |Quote(s, slash)| <= 3 * |s|
    ensures Quote(s, slash) == s <==>
      forall c :: c in s ==>
        'a' <= c <= 'z' || 'A' <= c <= 'Z' || '0' <= c <= '9' || c == '_' || c == '.' || c == '-' || (slash && c == '/')
    ensures |Quote(s, slash)| == |s| <==> Quote(s, slash) == s
  {
    if s != "" {
      var q := Quote(s[1..], slash);
      QuoteLeavesAlone(s[1..], slash);
      assert s == [s[0]] + s[1..] && forall c :: c in s <==> c == s[0] || c in s[1..];
      if Unreserved(s[0]) || (slash && s[0] == '/') {
        assert Quote(s, slash) == [s[0]] + q && (Quote(s, slash) == s <==> q == s[1..]);
      } else {
        assert s[0] in s && |Quote(s, slash)| > |s|;
      }
    }
  }

  predicate Quoted(c: char, slash: bool) {
    Unreserved(c) || c == '%' || (slash && c == '/')
  }

  lemma {:induction false} QuoteIsQuoted(s: string, slash: bool)
    requires Bytes(s)
    ensures forall c :: c in Quote(s, slash) ==> Quoted(c, slash)
    ensures Quote(s, slash) == "" <==> s == ""
    ensures slash && s != "" && s[0] == '/' ==> Quote(s, slash)[0] == '/'
  {
    if s != "" {
      QuoteIsQuoted(s[1..], slash);
      HexDigits(s[0] as int / 16);
      HexDigits(s[0] as int % 16);
    }
  }

  // ---- Identifiers of stacks ----

  datatype Identity = Identity(tenant: string, stackName: string, stackId: string, path: string)

  /** A path that is not empty gets a slash in front if it has none. */
  function Rooted(path: string): string {
    if path != "" && path[0] != '/' then "/" + path else path
  }

  /** HeatIdentifier.__init__. */
  function HeatIdentifier(tenant: string, stackName: string, stackId: string, path: string): Result<Identity> {
    if '/' in stackName then Err(ValueError) else Ok(Identity(tenant, stackName, stackId, Rooted(path)))
  }

  /** What the constructor guarantees. */
  predicate WellFormed(i: Identity) {
    '/' !in i.stackName && (i.path == "" || i.path[0] == '/')
  }

  predicate IsBytes(i: Identity) {
    Bytes(i.tenant) && Bytes(i.stackName) && Bytes(i.stackId) && Bytes(i.path)
  }

  /** _tenant_path. */
  function TenantPath(i: Identity): string
    requires IsBytes(i)
  {
    "stacks/" + (Quote(i.stackName, false) + ("/" + (Quote(i.stackId, false) + Quote(i.path, true))))
  }

  /** arn. */
  function Arn(i: Identity): string
    requires IsBytes(i)
  {
    "arn:openstack:heat::" + (Quote(i.tenant, false) + (":" + TenantPath(i)))
  }

  function Lower(s: string): string {
    seq(|s|, i requires 0 <= i < |s| => if 'A' <= s[i] <= 'Z' then (s[i] as int + 32) as char else s[i])
  }

  /** How many characters s has before the first c: what [^c]* matches. */
  function Until(s: string, c: char): (n: nat)
    ensures n <= |s| && c !in s[..n] && (n < |s| ==> s[n] == c)
  {
    if s == "" || s[0] == c then 0
    else
      var n := Until(s[1..], c);
      assert s[..n + 1] == [s[0]] + s[1..][..n];
      n + 1
  }

  lemma {:induction false} UntilIs(a: string, b: string, c: char)
    requires c !in a && (b == "" || b[0] == c)
    ensures Until(a + b, c) == |a|
  {
    if a == "" {
      assert a + b == b;
    } else {
      UntilIs(a[1..], b, c);
      assert (a + b)[1..] == a[1..] + b;
    }
  }

  /** ([^c]+) and what follows it. */
  function Cut(s: string, c: char): (r: Result<(string, string)>)
    ensures r.Ok? ==> var (a, b) := r.value; s == a + b && a != "" && c !in a && (b == "" || b[0] == c)
  {
    var n := Until(s, c);
    if n == 0 then Err(ValueError) else Ok((s[..n], s[n..]))
  }

  lemma CutIs(a: string, b: string, c: char)
    requires c !in a && (b == "" || b[0] == c)
    ensures Cut(a + b, c) == if a == "" then Err(ValueError) else Ok((a, b))
  {
    UntilIs(a, b, c);
    assert (a + b)[..|a|] == a && (a + b)[|a|..] == b;
  }

  /** The three groups of stacks/([^/]+)/([^/]+)(.*), whose last one ends before a line feed. */
  function MatchPath(s: string): Result<(string, string, string)> {
    if !("stacks/" <= s) then Err(ValueError)
    else match Cut(s[7..], '/')
      case Err(e) => Err(e)
      case Ok((name, rest)) =>
        if rest == "" then Err(ValueError)
        else match Cut(rest[1..], '/')
          case Err(e) => Err(e)
          case Ok((id, path)) => Ok((name, id, path[..Until(path, '\n')]))
  }

  /** from_arn, on the fields between the colons. */
  function FromFields(fields: seq<string>): Result<Identity> {
    if |fields| < 6 || Lower(fields[0]) != "arn" then Err(ValueError)
    else
      var path := MatchPath(Join(fields[5..], ':'));
      if fields[1] != "openstack" || fields[2] != "heat" || path.Err? then Err(ValueError)
      else HeatIdentifier(Unquote(fields[4]), Unquote(path.value.0), Unquote(path.value.1), Unquote(path.value.2))
  }

  /** from_arn. */
  function FromArn(arn: string): Result<Identity> {
    FromFields(Split(arn, ':'))
  }

  lemma MatchAnyPath(name: string, id: string, path: string)
    requires '/' !in name && '/' !in id && (path == "" || path[0] == '/')
    ensures MatchPath("stacks/" + (name + ("/" + (id + path)))) == if name == "" || id == "" then Err(ValueError)
      else Ok((name, id, path[..Until(path, '\n')]))
  {
    var tail := id + path;
    var rest := "/" + tail;
    assert ("stacks/" + (name + rest))[7..] == name + rest;
    CutIs(name, rest, '/');
    assert rest[1..] == tail;
    CutIs(id, path, '/');
  }

  lemma MatchTenantPath(name: string, id: string, path: string)
    requires '/' !in name && '/' !in id && (path == "" || path[0] == '/') && '\n' !in path
    ensures MatchPath("stacks/" + (name + ("/" + (id + path)))) == if name == "" || id == "" then Err(ValueError)
      else Ok((name, id, path))
  {
    MatchAnyPath(name, id, path);
    UntilIs(path, "", '\n');
    assert path + "" == path && path[..|path|] == path;
  }

  lemma SplitFront(field: string, rest: string)
    requires ':' !in field
    ensures Split(field + (":" + rest), ':') == [field] + Split(rest, ':')
  {
    SplitAppend(field, rest, ':');
    SplitField(field, ':');
  }

  lemma HeatPrefix(rest: string)
    ensures ":openstack:heat:" + rest == ":" + ("openstack" + (":" + ("heat" + (":" + rest))))
  {
  }

  lemma SplitHeatArn(scheme: string, region: string, tenant: string, rest: string)
    requires ':' !in scheme && ':' !in region && ':' !in tenant
    ensures Split(scheme + (":openstack:heat:" + (region + (":" + (tenant + (":" + rest))))), ':')
            == [scheme, "openstack", "heat", region, tenant] + Split(rest, ':')
  {
    var t := tenant + (":" + rest);
    var r := region + (":" + t);
    var h := "heat" + (":" + r);
    HeatPrefix(r);
    SplitFront(tenant, rest);
    SplitFront(region, t);
    SplitFront("heat", r);
    SplitFront("openstack", h);
    SplitFront(scheme, "openstack" + (":" + h));
  }

  lemma SplitArn(tenant: string, rest: string)
    requires ':' !in tenant && ':' !in rest
    ensures Split("arn:openstack:heat::" + (tenant + (":" + rest)), ':')
      == ["arn", "openstack", "heat", "", tenant, rest]
  {
    SplitHeatArn("arn", "", tenant, rest);
    SplitField(rest, ':');
    var t := tenant + (":" + rest);
    assert "arn:openstack:heat::" + t == "arn" + (":openstack:heat:" + ("" + (":" + t)));
  }

  /** The parts of an ARN, when none holds a character that separates them. */
  lemma {:induction false} ParseArn(tenant: string, name: string, id: string, path: string)
    requires ':' !in tenant && ':' !in name && ':' !in id && ':' !in path
    requires '/' !in name && '/' !in id && (path == "" || path[0] == '/') && '\n' !in path
    ensures FromArn("arn:openstack:heat::" + (tenant + (":" + ("stacks/" + (name + ("/" + (id + path)))))))
            == if name == "" || id == "" then Err(ValueError)
               else HeatIdentifier(Unquote(tenant), Unquote(name), Unquote(id), Unquote(path))
  {
    var rest := "stacks/" + (name + ("/" + (id + path)));
    assert ':' !in rest;
    SplitArn(tenant, rest);
    SixFields(tenant, rest);
    MatchTenantPath(name, id, path);
  }

  lemma SixFields(tenant: string, rest: string)
    ensures FromFields(["arn", "openstack", "heat", "", tenant, rest])
            == match MatchPath(rest)
               case Err(e) => Err(e)
               case Ok((name, id, path)) => HeatIdentifier(Unquote(tenant), Unquote(name), Unquote(id), Unquote(path))
  {
    assert ["arn", "openstack", "heat", "", tenant, rest][5..] == [rest];
    assert Lower("arn") == "arn";
  }

  lemma QuoteSeparates(s: string, slash: bool)
    requires Bytes(s)
    ensures ':' !in Quote(s, slash) && '\n' !in Quote(s, slash) && (!slash ==> '/' !in Quote(s, slash))
    ensures Quote(s, slash) == "" <==> s == ""
    ensures slash && s != "" && s[0] == '/' ==> Quote(s, slash)[0] == '/'
  {
  }

  /**
    An identifier is given back by its ARN if and only if neither stack name nor
    stack id is empty; else parsing fails.
  */
  lemma ArnRoundTrip(i: Identity)
    requires IsBytes(i) && WellFormed(i)
    ensures FromArn(Arn(i)) == if i.stackName == "" || i.stackId == "" then Err(ValueError) else Ok(i)
  {
    QuoteSeparates(i.tenant, false);
    QuoteSeparates(i.stackName, false);
    QuoteSeparates(i.stackId, false);
    QuoteSeparates(i.path, true);
    ParseArn(Quote(i.tenant, false), Quote(i.stackName, false), Quote(i.stackId, false), Quote(i.path, true));
    UnquoteQuote(i.tenant, false);
    UnquoteQuote(i.stackName, false);
    UnquoteQuote(i.stackId, false);
    UnquoteQuote(i.path, true);
  }

  // ---- Printing is a normal form of whatever can be parsed ----

  lemma {:induction false} UnquoteBytes(s: string)
    requires Bytes(s)
    ensures Bytes(Unquote(s)) && (Unquote(s) == "" <==> s == "")
  {
    if s != "" {
      UnquoteBytes(s[1..]);
      if |s| >= 3 {
        UnquoteBytes(s[3..]);
      }
    }
  }

  lemma {:induction false} SplitBytes(field: string, s: string, c: char)
    requires Bytes(field) && Bytes(s)
    ensures forall i :: 0 <= i < |SplitOn(field, s, c)| ==> Bytes(SplitOn(field, s, c)[i])
    decreases |s|
  {
    if s != "" {
      if s[0] == c {
        SplitBytes("", s[1..], c);
      } else {
        SplitBytes(field + [s[0]], s[1..], c);
      }
    }
  }

  lemma {:induction false} JoinBytes(fields: seq<string>, c: char)
    requires c as int < 256 && forall i :: 0 <= i < |fields| ==> Bytes(fields[i])
    ensures Bytes(Join(fields, c))
  {
    if |fields| > 1 {
      JoinBytes(fields[1..], c);
    }
  }

  /** Whatever byte string is accepted as an ARN, printing what it names and parsing that again names the same. */
  lemma PrintedArnNamesTheSame(arn: string)
    requires Bytes(arn) && FromArn(arn).Ok?
    ensures var i := FromArn(arn).value; IsBytes(i) && WellFormed(i) && FromArn(Arn(i)) == Ok(i)
  {
    var fields := Split(arn, ':');
    SplitBytes("", arn, ':');
    JoinBytes(fields[5..], ':');
    var (name, id, path) := MatchPath(Join(fields[5..], ':')).value;
    UnquoteBytes(fields[4]);
    UnquoteBytes(name);
    UnquoteBytes(id);
    UnquoteBytes(path);
    ArnRoundTrip(FromArn(arn).value);
  }

  // ---- What is accepted as an ARN ----

  /** The parts of an ARN of Heat; the path may go on after a line feed. */
  ghost predicate HeatArn(arn: string, scheme: string, region: string, tenant: string,
                          name: string, id: string, path: string)
  {
    && Lower(scheme) == "arn" && ':' !in scheme && ':' !in region && ':' !in tenant
    && name != "" && '/' !in name && id != "" && '/' !in id && (path == "" || path[0] == '/')
    && arn == scheme + (":openstack:heat:" + (region + (":" + (tenant + (":" + TenantPart(name, id, path))))))
  }

  ghost function TenantPart(name: string, id: string, path: string): string {
    "stacks/" + (name + ("/" + (id + path)))
  }

  /** What such an ARN is parsed into. */
  lemma HeatArnParses(arn: string, scheme: string, region: string, tenant: string,
                      name: string, id: string, path: string)
    requires HeatArn(arn, scheme, region, tenant, name, id, path)
    ensures FromArn(arn)
            == HeatIdentifier(Unquote(tenant), Unquote(name), Unquote(id), Unquote(path[..Until(path, '\n')]))
  {
    var rest := TenantPart(name, id, path);
    SplitHeatArn(scheme, region, tenant, rest);
    var fields := Split(arn, ':');
    assert fields[5..] == Split(rest, ':');
    JoinSplit(rest, ':');
    MatchAnyPath(name, id, path);
  }

  /** The parts of a path that matches. */
  lemma MatchedPath(rest: string) returns (name: string, id: string, path: string)
    requires MatchPath(rest).Ok?
    ensures rest == TenantPart(name, id, path) && MatchPath(rest).value.0 == name
    ensures name != "" && '/' !in name && id != "" && '/' !in id && (path == "" || path[0] == '/')
  {
    var (n, tail) := Cut(rest[7..], '/').value;
    var (i, p) := Cut(tail[1..], '/').value;
    name, id, path := n, i, p;
    assert rest == "stacks/" + rest[7..] && tail == "/" + tail[1..];
  }

  /** The parts of what is accepted. */
  lemma AcceptedIsHeatArn(arn: string)
      returns (scheme: string, region: string, tenant: string, name: string, id: string, path: string)
    requires FromArn(arn).Ok?
    ensures HeatArn(arn, scheme, region, tenant, name, id, path) && '/' !in Unquote(name)
  {
    var fields := Split(arn, ':');
    forall k | 0 <= k < |fields| ensures ':' !in fields[k] {
      NoFieldHolds("", arn, ':', k);
    }
    scheme, region, tenant := fields[0], fields[3], fields[4];
    var rest := Join(fields[5..], ':');
    JoinSplit(arn, ':');
    JoinFive(fields);
    name, id, path := MatchedPath(rest);
    HeatPrefix(region + (":" + (tenant + (":" + rest))));
  }

  lemma JoinFrom(fields: seq<string>, k: nat)
    requires k + 1 < |fields|
    ensures Join(fields[k..], ':') == fields[k] + (":" + Join(fields[k + 1..], ':'))
  {
    assert fields[k..][1..] == fields[k + 1..];
  }

  lemma JoinFive(fields: seq<string>)
    requires |fields| >= 6
    ensures Join(fields, ':')
            == fields[0] + (":" + (fields[1] + (":" + (fields[2] + (":" + (fields[3] + (":" + (fields[4]
               + (":" + Join(fields[5..], ':'))))))))))
  {
    assert fields[0..] == fields;
    JoinFrom(fields, 0);
    JoinFrom(fields, 1);
    JoinFrom(fields, 2);
    JoinFrom(fields, 3);
    JoinFrom(fields, 4);
  }

  /**
    What is accepted as an ARN: the scheme may be in capitals and the region is
    not looked at, but service, stack name and id have to be there, and a stack
    name that hides a slash is refused. All else is a ValueError.
  */
  lemma AcceptedArns(arn: string)
    ensures FromArn(arn).Ok? <==>
      exists scheme, region, tenant, name, id, path ::
        HeatArn(arn, scheme, region, tenant, name, id, path) && '/' !in Unquote(name)
    ensures FromArn(arn).Err? ==> FromArn(arn).error == ValueError
  {
    if FromArn(arn).Ok? {
      var scheme, region, tenant, name, id, path := AcceptedIsHeatArn(arn);
    }
    forall scheme, region, tenant, name, id, path |
      HeatArn(arn, scheme, region, tenant, name, id, path) && '/' !in Unquote(name)
      ensures FromArn(arn).Ok?
    {
      HeatArnParses(arn, scheme, region, tenant, name, id, path);
    }
  }

  // ---- Identifiers of resources and events ----

  /** Python's s.lstrip('/') and s.rstrip('/'). */
  function LStrip(s: string): (r: string)
    ensures r == "" || r[0] != '/'
    ensures r != "" ==> s != "" && r[|r| - 1] == s[|s| - 1]
    ensures |r| <= |s| && (s != "" && s[0] == '/' ==> |r| < |s|)
  {
    if s != "" && s[0] == '/' then LStrip(s[1..]) else s
  }

  function RStrip(s: string): (r: string)
    ensures r == "" || r[|r| - 1] != '/'
  {
    if s != "" && s[|s| - 1] == '/' then RStrip(s[..|s| - 1]) else s
  }

  /** _path_components. */
  function Components(i: Identity): seq<string> {
    Split(LStrip(i.path), '/')
  }

  /** '/'.join(components[:-2]). */
  function Parent(components: seq<string>): string {
    if |components| < 2 then "" else Join(components[..|components| - 2], '/')
  }

  function Last(components: seq<string>): string
    requires components != []
  {
    components[|components| - 1]
  }

  /** '/'.join([path.rstrip('/'), kind, leaf]). */
  function ChildPath(path: string, kind: string, leaf: string): string {
    RStrip(path) + ("/" + (kind + ("/" + leaf)))
  }

  /** ResourceIdentifier.__init__ with a resource name. */
  function ResourceIdentifier(tenant: string, stackName: string, stackId: string, path: string,
                              resourceName: string): Result<Identity> {
    if '/' in resourceName then Err(ValueError)
    else HeatIdentifier(tenant, stackName, stackId, ChildPath(path, "resources", resourceName))
  }

  /** stack(), of a resource's identifier. */
  function ResourceStack(r: Identity): Result<Identity> {
    HeatIdentifier(r.tenant, r.stackName, r.stackId, Parent(Components(r)))
  }

  /** EventIdentifier.__init__ with an event id. */
  function EventIdentifier(tenant: string, stackName: string, stackId: string, path: string,
                           eventId: string): Result<Identity> {
    HeatIdentifier(tenant, stackName, stackId, ChildPath(path, "events", eventId))
  }

  /** resource(), of an event's identifier. */
  function EventResource(e: Identity): Result<Identity> {
    HeatIdentifier(e.tenant, e.stackName, e.stackId, Parent(Components(e)))
  }

  /** A path without the slashes at its ends, rooted again: what a parent path is given back as. */
  function Normal(path: string): string {
    Rooted(LStrip(RStrip(path)))
  }

  lemma {:induction false} LStripAppend(a: string, b: string)
    requires a != "" && a[|a| - 1] != '/'
    ensures LStrip(a) != "" && LStrip(a + b) == LStrip(a) + b
  {
    if a[0] == '/' {
      LStripAppend(a[1..], b);
      assert (a + b)[1..] == a[1..] + b;
    }
  }

  /** The components of a path that goes on after base: those of base, if it has any, then those of the tail. */
  ghost function Above(base: string): seq<string> {
    if base == "" then [] else Split(LStrip(base), '/')
  }

  lemma RootedComponents(base: string, tail: string)
    requires base == "" || base[|base| - 1] != '/'
    requires tail != "" && tail[0] != '/'
    ensures Split(LStrip(Rooted(base + ("/" + tail))), '/') == Above(base) + Split(tail, '/')
  {
    var rest := "/" + tail;
    assert rest[1..] == tail;
    if base == "" {
      assert base + rest == rest;
    } else {
      LStripAppend(base, rest);
      assert ("/" + (base + rest))[1..] == base + rest;
      SplitRest(LStrip(base), rest, '/');
    }
  }

  lemma KindComponents(kind: string, leaf: string)
    requires kind != "" && '/' !in kind
    ensures Split(kind + ("/" + leaf), '/') == [kind] + Split(leaf, '/') && (kind + ("/" + leaf))[0] != '/'
  {
    SplitAppend(kind, leaf, '/');
    SplitField(kind, '/');
    assert (kind + ("/" + leaf))[0] == kind[0] && kind[0] in kind;
  }

  /** The components of a child's path: those of the parent, the kind, and the leaf cut at its slashes. */
  lemma ChildComponents(i: Identity, path: string, kind: string, leaf: string)
    requires i.path == Rooted(ChildPath(path, kind, leaf)) && kind != "" && '/' !in kind
    ensures Components(i) == Above(RStrip(path)) + ([kind] + Split(leaf, '/'))
  {
    KindComponents(kind, leaf);
    RootedComponents(RStrip(path), kind + ("/" + leaf));
  }

  lemma PartsOf(components: seq<string>, above: seq<string>, kind: string, leaf: seq<string>)
    requires components == above + ([kind] + leaf) && leaf != []
    ensures Last(components) == Last(leaf)
    ensures |leaf| == 1 ==> Parent(components) == Join(above, '/')
  {
  }

  lemma AboveIsNormal(path: string)
    ensures Rooted(Join(Above(RStrip(path)), '/')) == Normal(path)
  {
    if RStrip(path) != "" {
      JoinSplit(LStrip(RStrip(path)), '/');
    }
  }

  /** A leaf without slashes is the last component, and the parent's path is given back in its normal form. */
  lemma ChildParts(i: Identity, path: string, kind: string, leaf: string)
    requires i.path == Rooted(ChildPath(path, kind, leaf)) && kind != "" && '/' !in kind
    ensures Last(Components(i)) == leaf <==> '/' !in leaf
    ensures '/' !in leaf ==> Rooted(Parent(Components(i))) == Normal(path)
  {
    ChildComponents(i, path, kind, leaf);
    LeafIsLast(leaf);
    PartsOf(Components(i), Above(RStrip(path)), kind, Split(leaf, '/'));
    AboveIsNormal(path);
  }

  lemma LeafIsLast(leaf: string)
    ensures Last(Split(leaf, '/')) == leaf <==> '/' !in leaf
    ensures '/' !in leaf ==> |Split(leaf, '/')| == 1
  {
    if '/' !in leaf {
      SplitField(leaf, '/');
    } else {
      NoFieldHolds("", leaf, '/', |Split(leaf, '/')| - 1);
    }
  }

  /** A path is in its normal form if it is empty or has one slash in front and none at the end. */
  predicate IsNormal(path: string) {
    path == "" || (|path| > 1 && path[0] == '/' && path[1] != '/' && path[|path| - 1] != '/')
  }

  /** The path of an owner is given back unchanged if and only if it is in normal form. */
  lemma NormalIs(path: string)
    ensures Normal(path) == path <==> IsNormal(path)
  {
    var stripped := LStrip(RStrip(path));
    if path != "" && path[|path| - 1] != '/' {
      assert RStrip(path) == path;
      if path[0] == '/' {
        assert path == "/" + path[1..];
        assert LStrip(path) == LStrip(path[1..]);
      }
    } else if path != "" {
      assert Normal(path) != "" ==> Normal(path)[|Normal(path)| - 1] != '/';
    }
  }

  /** A resource's identifier gives back the resource name and the owning stack, with its path in normal form. */
  lemma ResourceParts(stack: Identity, resourceName: string)
    requires '/' !in stack.stackName && '/' !in resourceName
    ensures var r := ResourceIdentifier(stack.tenant, stack.stackName, stack.stackId, stack.path, resourceName);
      r.Ok? && Last(Components(r.value)) == resourceName
        && ResourceStack(r.value) == Ok(stack.(path := Normal(stack.path)))
    ensures IsNormal(stack.path) ==>
      ResourceStack(ResourceIdentifier(stack.tenant, stack.stackName, stack.stackId, stack.path,
                                       resourceName).value) == Ok(stack)
  {
    var r := ResourceIdentifier(stack.tenant, stack.stackName, stack.stackId, stack.path, resourceName).value;
    ChildParts(r, stack.path, "resources", resourceName);
    NormalIs(stack.path);
  }

  /** A slash in a stack or resource name is refused; event ids are not looked at. */
  lemma SlashesAreRefused(tenant: string, stackName: string, stackId: string, path: string, leaf: string)
    ensures var r := ResourceIdentifier(tenant, stackName, stackId, path, leaf);
      (r.Err? <==> '/' in stackName || '/' in leaf) && (r.Err? ==> r.error == ValueError)
    ensures var e := EventIdentifier(tenant, stackName, stackId, path, leaf);
      (e.Err? <==> '/' in stackName) && (e.Err? ==> e.error == ValueError)
  {
  }

  /**
    An event's identifier gives back the event id if and only if that holds no
    slash, and then also the path it was given.
  */
  lemma EventParts(owner: Identity, eventId: string)
    requires '/' !in owner.stackName
    ensures var e := EventIdentifier(owner.tenant, owner.stackName, owner.stackId, owner.path, eventId);
      && e.Ok? && (Last(Components(e.value)) == eventId <==> '/' !in eventId)
      && ('/' !in eventId ==> EventResource(e.value) == Ok(owner.(path := Normal(owner.path))))
  {
    var e := EventIdentifier(owner.tenant, owner.stackName, owner.stackId, owner.path, eventId).value;
    ChildParts(e, owner.path, "events", eventId);
  }

  /**
    The event of a resource of a stack: its resource name is given back if and
    only if it is not empty, and then the stack is.
  */
  lemma EventOfResource(stack: Identity, resourceName: string, eventId: string)
    requires '/' !in stack.stackName && '/' !in resourceName && '/' !in eventId
    ensures var r := ResourceIdentifier(stack.tenant, stack.stackName, stack.stackId, stack.path, resourceName);
      r.Ok? &&
      var e := EventIdentifier(stack.tenant, stack.stackName, stack.stackId, r.value.path, eventId);
      e.Ok? && EventResource(e.value).Ok? &&
      var back := EventResource(e.value).value;
      && Last(Components(e.value)) == eventId
      && (Last(Components(back)) == resourceName <==> resourceName != "")
      && (resourceName != "" ==> ResourceStack(back) == Ok(stack.(path := Normal(stack.path))))
  {
    var r := ResourceIdentifier(stack.tenant, stack.stackName, stack.stackId, stack.path, resourceName).value;
    EventParts(r, eventId);
    NormalResource(r, stack.path, "resources", resourceName);
  }

  lemma NormalResource(r: Identity, path: string, kind: string, name: string)
    requires r.path == Rooted(ChildPath(path, kind, name)) && '/' !in name
    requires kind != "" && '/' !in kind
    ensures var back := r.(path := Normal(r.path));
      && (Last(Components(back)) == name <==> name != "")
      && (name != "" ==> Rooted(Parent(Components(back))) == Normal(path))
  {
    NormalChild(r, r.(path := Normal(r.path)), RStrip(path), kind, name);
    if name != "" {
      ChildParts(r, path, kind, name);
    }
  }

  /** In its normal form, the path of a child keeps its components, but for an empty leaf. */
  lemma NormalChild(r: Identity, back: Identity, base: string, kind: string, leaf: string)
    requires base == "" || base[|base| - 1] != '/'
    requires kind != "" && '/' !in kind && '/' !in leaf
    requires r.path == Rooted(base + ("/" + (kind + ("/" + leaf)))) && back.path == Normal(r.path)
    ensures leaf != "" ==> Components(back) == Components(r)
    ensures leaf == "" ==> Last(Components(back)) == kind
  {
    NormalComponents(RStrip(r.path));
    if leaf != "" {
      EndsIn(r.path, base, kind + ("/" + leaf), leaf);
    } else {
      NamelessChild(r.path, base, kind);
    }
  }

  lemma NamelessChild(path: string, base: string, kind: string)
    requires base == "" || base[|base| - 1] != '/'
    requires kind != "" && '/' !in kind
    requires path == Rooted(base + ("/" + (kind + ("/" + ""))))
    ensures Last(Split(LStrip(RStrip(path)), '/')) == kind
  {
    var shorter := Rooted(base + ("/" + kind));
    EndsIn(shorter, base, kind, kind);
    EmptyLeaf(base, "/" + kind);
    assert kind + ("/" + "") == kind + "/" && "/" + (kind + "/") == ("/" + kind) + "/";
    StripOne(path, shorter);
    assert kind[0] in kind;
    RootedComponents(base, kind);
    LeafIsLast(kind);
  }

  lemma EmptyLeaf(base: string, rest: string)
    requires rest != "" && rest[0] == '/'
    ensures Rooted(base + (rest + "/")) == Rooted(base + rest) + "/"
  {
  }

  lemma StripOne(path: string, shorter: string)
    requires path == shorter + "/" && RStrip(shorter) == shorter
    ensures RStrip(path) == shorter
  {
  }

  lemma EndsIn(path: string, base: string, tail: string, leaf: string)
    requires path == Rooted(base + ("/" + tail)) && leaf != "" && '/' !in leaf
    requires |leaf| <= |tail| && tail[|tail| - |leaf|..] == leaf
    ensures RStrip(path) == path
  {
  }

  lemma NormalComponents(path: string)
    ensures LStrip(Rooted(LStrip(path))) == LStrip(path)
  {
  }
}
