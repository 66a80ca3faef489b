/**
 * The Bluecat DNS-provider plugin: its configuration block, the coercion of
 * generic records into the concrete kinds the Bluecat client dispatches on, and
 * the matching that recovers the provider's correlation token before a delete.
 *
 * Calls into the Bluecat client (fetching, appending, deleting records), the
 * IP-address parser and the generic view of a record are parameters: this
 * module says what the plugin does around them, not what they do.
 */
module Bluecat {
  import opened Wrappers
  import opened Caddyfile
  import opened Libdns

  // ---------------------------------------------------------------------------
  // Configuration fields and subdirectives
  // ---------------------------------------------------------------------------

  /** The five configuration fields of the provider, as a value. */
  datatype Config = Config(serverURL: string, username: string, password: string,
                           configurationName: string, viewName: string)

  /** The fields of a provider as the module registry creates it. */
  const EmptyConfig := Config("", "", "", "", "")

  /** The subdirectives the directive's block accepts, one per field. */
  datatype Subdirective = ServerURL | Username | Password | ConfigurationName | ViewName

  /** How a subdirective is spelled in the configuration file. */
  function Spelling(k: Subdirective): string
  {
    match k
    case ServerURL => "server_url"
    case Username => "username"
    case Password => "password"
    case ConfigurationName => "configuration_name"
    case ViewName => "view_name"
  }

  /** The subdirective a token names, if any: the inverse of Spelling. */
  function Lookup(token: string): (r: Option<Subdirective>)
    ensures r.Some? ==> Spelling(r.value) == token
    ensures r.None? ==> forall k: Subdirective :: Spelling(k) != token
  {
    if token == "server_url" then Some(ServerURL)
    else if token == "username" then Some(Username)
    else if token == "password" then Some(Password)
    else if token == "configuration_name" then Some(ConfigurationName)
    else if token == "view_name" then Some(ViewName)
    else None
  }

  /** The field a subdirective sets. */
  function Get(c: Config, k: Subdirective): string
  {
    match k
    case ServerURL => c.serverURL
    case Username => c.username
    case Password => c.password
    case ConfigurationName => c.configurationName
    case ViewName => c.viewName
  }

  /** The configuration with the field of `k`, and no other, replaced by `v`. */
  function Set(c: Config, k: Subdirective, v: string): (r: Config)
    ensures Get(r, k) == v
    ensures forall k' :: k' != k ==> Get(r, k') == Get(c, k')
  {
    match k
    case ServerURL => c.(serverURL := v)
    case Username => c.(username := v)
    case Password => c.(password := v)
    case ConfigurationName => c.(configurationName := v)
    case ViewName => c.(viewName := v)
  }

  // ---------------------------------------------------------------------------
  // Parsing the configuration block, as a function of the fields before the call
  // ---------------------------------------------------------------------------

  datatype ParseError =
    | ArgErr(after: string)                 // wrong argument count; the token where it was noticed
    | UnrecognizedSubdirective(name: string)
    | MissingServerURL
    | MissingUsername
    | MissingPassword

  /** The fields after a stretch of parsing, and the error that stopped it, if any. */
  datatype Outcome = Outcome(config: Config, err: Option<ParseError>)

  /** The line names a subdirective and gives it an argument. */
  predicate Assigns(line: Line, k: Subdirective)
  {
    Lookup(line.key) == Some(k) && |line.args| >= 1
  }

  /** The line is accepted: a known subdirective with at most one argument. */
  predicate LineOk(line: Line)
  {
    Lookup(line.key).Some? && |line.args| <= 1
  }

  predicate LinesOk(lines: seq<Line>)
  {
    forall i :: 0 <= i < |lines| ==> LineOk(lines[i])
  }

  /** The block is accepted: no argument after the directive name, every line accepted. */
  predicate BlockOk(b: Block)
  {
    b.args == [] && LinesOk(b.lines)
  }

  predicate WellFormed(blocks: seq<Block>)
  {
    forall i :: 0 <= i < |blocks| ==> BlockOk(blocks[i])
  }

  /** The three fields the plugin cannot work without are all set. */
  predicate HasRequired(c: Config)
  {
    c.serverURL != "" && c.username != "" && c.password != ""
  }

  /**
   * One line of the block. A known subdirective takes its first argument, if
   * any, into its field, and only then fails if a second argument follows, so
   * a failing line may already have changed its field. An unknown subdirective
   * fails and changes nothing.
   */
  function ApplyLine(c: Config, line: Line): (r: Outcome)
    ensures r.err.None? <==> LineOk(line)
    ensures Lookup(line.key).None? ==> r.err == Some(UnrecognizedSubdirective(line.key))
    ensures Lookup(line.key).Some? && |line.args| >= 2 ==> r.err == Some(ArgErr(line.args[1]))
    ensures forall k :: Get(r.config, k) == if Assigns(line, k) then line.args[0] else Get(c, k)
  {
    match Lookup(line.key)
    case None => Outcome(c, Some(UnrecognizedSubdirective(line.key)))
    case Some(k) =>
      var c' := if |line.args| >= 1 then Set(c, k, line.args[0]) else c;
      Outcome(c', if |line.args| >= 2 then Some(ArgErr(line.args[1])) else None)
  }

  /** The lines of one block, in order, stopping at the first failing line. */
  function ApplyLines(c: Config, lines: seq<Line>): Outcome
    decreases |lines|
  {
    if lines == [] then Outcome(c, None)
    else
      var o := ApplyLine(c, lines[0]);
      if o.err.Some? then o else ApplyLines(o.config, lines[1..])
  }

  /** Every occurrence of the directive, in order, stopping at the first failure. */
  function ApplyBlocks(c: Config, blocks: seq<Block>): Outcome
    decreases |blocks|
  {
    if blocks == [] then Outcome(c, None)
    else if blocks[0].args != [] then Outcome(c, Some(ArgErr(blocks[0].args[0])))
    else
      var o := ApplyLines(c, blocks[0].lines);
      if o.err.Some? then o else ApplyBlocks(o.config, blocks[1..])
  }

  /** The final check of the required fields, in the order the plugin makes it. */
  function CheckRequired(c: Config): (r: Option<ParseError>)
    ensures r.None? <==> HasRequired(c)
    ensures r == Some(MissingServerURL) <==> c.serverURL == ""
    ensures r == Some(MissingUsername) <==> c.serverURL != "" && c.username == ""
    ensures r == Some(MissingPassword) <==> c.serverURL != "" && c.username != "" && c.password == ""
  {
    if c.serverURL == "" then Some(MissingServerURL)
    else if c.username == "" then Some(MissingUsername)
    else if c.password == "" then Some(MissingPassword)
    else None
  }

  /**
   * The whole of UnmarshalCaddyfile: the block is applied to the fields the
   * provider had before the call, and the required fields are checked on the
   * fields as they end up, whether they were set by this block or before it.
   */
  function Unmarshal(c: Config, blocks: seq<Block>): (r: Outcome)
    ensures r.err.None? ==> HasRequired(r.config)
  {
    var o := ApplyBlocks(c, blocks);
    if o.err.Some? then o else Outcome(o.config, CheckRequired(o.config))
  }

  // ---------------------------------------------------------------------------
  // What parsing accepts and rejects
  // ---------------------------------------------------------------------------

  lemma {:induction false} ApplyLinesSucceedsIff(c: Config, lines: seq<Line>)
    ensures ApplyLines(c, lines).err.None? <==> LinesOk(lines)
    decreases |lines|
  {
    if lines != [] {
      var o := ApplyLine(c, lines[0]);
      assert forall i :: 1 <= i < |lines| ==> lines[i] == lines[1..][i - 1];
      if o.err.None? {
        ApplyLinesSucceedsIff(o.config, lines[1..]);
        assert LinesOk(lines[1..]) ==> LinesOk(lines) by {
          if LinesOk(lines[1..]) {
            forall i | 0 <= i < |lines| ensures LineOk(lines[i]) {
              if i > 0 { assert LineOk(lines[1..][i - 1]); }
            }
          }
        }
      }
    }
  }

  lemma {:induction false} ApplyBlocksSucceedsIff(c: Config, blocks: seq<Block>)
    ensures ApplyBlocks(c, blocks).err.None? <==> WellFormed(blocks)
    decreases |blocks|
  {
    if blocks != [] {
      assert forall i :: 1 <= i < |blocks| ==> blocks[i] == blocks[1..][i - 1];
      if blocks[0].args == [] {
        var o := ApplyLines(c, blocks[0].lines);
        ApplyLinesSucceedsIff(c, blocks[0].lines);
        if o.err.None? {
          ApplyBlocksSucceedsIff(o.config, blocks[1..]);
          assert WellFormed(blocks[1..]) ==> WellFormed(blocks) by {
            if WellFormed(blocks[1..]) {
              forall i | 0 <= i < |blocks| ensures BlockOk(blocks[i]) {
                if i > 0 { assert BlockOk(blocks[1..][i - 1]); }
              }
            }
          }
        }
      }
    }
  }

  /**
   * Parsing succeeds exactly when every occurrence of the directive has no
   * argument after its name, every line names one of the five subdirectives
   * with at most one argument, and the fields then hold a server URL, a
   * username and a password.
   */
  lemma UnmarshalSucceedsIff(c: Config, blocks: seq<Block>)
    ensures Unmarshal(c, blocks).err.None? <==>
            WellFormed(blocks) && HasRequired(ApplyBlocks(c, blocks).config)
  {
    ApplyBlocksSucceedsIff(c, blocks);
  }

  /** Any subdirective other than the five known ones makes parsing fail. */
  lemma UnrecognizedSubdirectiveFails(c: Config, blocks: seq<Block>, b: nat, i: nat)
    requires b < |blocks| && i < |blocks[b].lines|
    requires Lookup(blocks[b].lines[i].key).None?
    ensures Unmarshal(c, blocks).err.Some?
  {
    ApplyBlocksSucceedsIff(c, blocks);
    assert !LineOk(blocks[b].lines[i]);
    assert !BlockOk(blocks[b]);
  }

  /** An argument after the directive's name makes parsing fail. */
  lemma HeaderArgumentFails(c: Config, blocks: seq<Block>, b: nat)
    requires b < |blocks| && blocks[b].args != []
    ensures Unmarshal(c, blocks).err.Some?
  {
    ApplyBlocksSucceedsIff(c, blocks);
    assert !BlockOk(blocks[b]);
  }

  /** A known subdirective given two or more arguments makes parsing fail. */
  lemma ExtraArgumentFails(c: Config, blocks: seq<Block>, b: nat, i: nat)
    requires b < |blocks| && i < |blocks[b].lines|
    requires |blocks[b].lines[i].args| >= 2
    ensures Unmarshal(c, blocks).err.Some?
  {
    ApplyBlocksSucceedsIff(c, blocks);
    assert !LineOk(blocks[b].lines[i]);
    assert !BlockOk(blocks[b]);
  }

  /** The first failing line decides the error, whatever the fields hold by then. */
  lemma {:induction false} ApplyLinesFirstFault(c: Config, lines: seq<Line>, i: nat)
    requires i < |lines| && !LineOk(lines[i])
    requires forall j :: 0 <= j < i ==> LineOk(lines[j])
    ensures ApplyLines(c, lines).err == ApplyLine(c, lines[i]).err
    decreases i
  {
    var o := ApplyLine(c, lines[0]);
    if i > 0 {
      assert lines[1..][i - 1] == lines[i];
      ApplyLinesFirstFault(o.config, lines[1..], i - 1);
    }
  }

  /**
   * The error reported is that of the first fault in the token stream: an
   * argument after the directive's name, an unknown subdirective or an extra
   * argument, in the order they are met.
   */
  lemma {:induction false} FirstFaultReported(c: Config, blocks: seq<Block>, b: nat, i: nat)
    requires b < |blocks| && forall j :: 0 <= j < b ==> BlockOk(blocks[j])
    requires blocks[b].args == [] && i < |blocks[b].lines| && !LineOk(blocks[b].lines[i])
    requires forall j :: 0 <= j < i ==> LineOk(blocks[b].lines[j])
    ensures Unmarshal(c, blocks).err == ApplyLine(c, blocks[b].lines[i]).err
    decreases b
  {
    if b == 0 {
      ApplyLinesFirstFault(c, blocks[0].lines, i);
    } else {
      var o := ApplyLines(c, blocks[0].lines);
      ApplyLinesSucceedsIff(c, blocks[0].lines);
      assert BlockOk(blocks[0]);
      assert blocks[1..][b - 1] == blocks[b];
      FirstFaultReported(o.config, blocks[1..], b - 1, i);
    }
  }

  /** An argument after the directive's name is reported as such when nothing failed before it. */
  lemma {:induction false} HeaderArgumentReported(c: Config, blocks: seq<Block>, b: nat)
    requires b < |blocks| && forall j :: 0 <= j < b ==> BlockOk(blocks[j])
    requires blocks[b].args != []
    ensures Unmarshal(c, blocks).err == Some(ArgErr(blocks[b].args[0]))
    decreases b
  {
    if b > 0 {
      var o := ApplyLines(c, blocks[0].lines);
      ApplyLinesSucceedsIff(c, blocks[0].lines);
      assert BlockOk(blocks[0]);
      assert blocks[1..][b - 1] == blocks[b];
      HeaderArgumentReported(o.config, blocks[1..], b - 1);
    }
  }

  // ---------------------------------------------------------------------------
  // Which value each field ends up with
  // ---------------------------------------------------------------------------

  /** The lines of all occurrences of the directive, in order. */
  function AllLines(blocks: seq<Block>): seq<Line>
    decreases |blocks|
  {
    if blocks == [] then [] else blocks[0].lines + AllLines(blocks[1..])
  }

  lemma {:induction false} ApplyLinesAppend(c: Config, a: seq<Line>, b: seq<Line>)
    ensures ApplyLines(c, a + b) ==
            (var o := ApplyLines(c, a); if o.err.Some? then o else ApplyLines(o.config, b))
    decreases |a|
  {
    if a == [] {
      assert a + b == b;
    } else {
      assert (a + b)[0] == a[0];
      assert (a + b)[1..] == a[1..] + b;
      var o := ApplyLine(c, a[0]);
      if o.err.None? {
        ApplyLinesAppend(o.config, a[1..], b);
      }
    }
  }

  /** With no argument after any directive name, the blocks act as one run of lines. */
  lemma {:induction false} ApplyBlocksAsLines(c: Config, blocks: seq<Block>)
    requires forall j :: 0 <= j < |blocks| ==> blocks[j].args == []
    ensures ApplyBlocks(c, blocks) == ApplyLines(c, AllLines(blocks))
    decreases |blocks|
  {
    if blocks != [] {
      assert blocks[0].args == [];
      ApplyLinesAppend(c, blocks[0].lines, AllLines(blocks[1..]));
      var o := ApplyLines(c, blocks[0].lines);
      if o.err.None? {
        assert forall j :: 0 <= j < |blocks[1..]| ==> blocks[1..][j] == blocks[j + 1];
        ApplyBlocksAsLines(o.config, blocks[1..]);
      }
    }
  }

  /**
   * On lines that are all accepted, a field keeps its value from before when
   * no line sets it, and otherwise ends up with the argument of the last line
   * that sets it.
   */
  lemma {:induction false} ApplyLinesLastWins(c: Config, lines: seq<Line>, k: Subdirective)
    requires LinesOk(lines)
    ensures (forall i :: 0 <= i < |lines| ==> !Assigns(lines[i], k)) ==>
            Get(ApplyLines(c, lines).config, k) == Get(c, k)
    ensures forall i :: 0 <= i < |lines| && Assigns(lines[i], k) &&
                        (forall j :: i < j < |lines| ==> !Assigns(lines[j], k)) ==>
            Get(ApplyLines(c, lines).config, k) == lines[i].args[0]
    decreases |lines|
  {
    if lines != [] {
      var o := ApplyLine(c, lines[0]);
      var rest := lines[1..];
      assert forall j :: 0 <= j < |rest| ==> rest[j] == lines[j + 1];
      assert LineOk(lines[0]);
      assert ApplyLines(c, lines) == ApplyLines(o.config, rest);
      ApplyLinesLastWins(o.config, rest, k);
      forall i | 0 <= i < |lines| && Assigns(lines[i], k) &&
                 (forall j :: i < j < |lines| ==> !Assigns(lines[j], k))
        ensures Get(ApplyLines(c, lines).config, k) == lines[i].args[0]
      {
        if i == 0 {
          assert forall j :: 0 <= j < |rest| ==> !Assigns(rest[j], k);
        } else {
          assert Assigns(rest[i - 1], k);
          assert forall j :: i - 1 < j < |rest| ==> !Assigns(rest[j], k);
        }
      }
    }
  }

  /**
   * After a successful parse, each field holds the argument of the last line
   * in the configuration that set it, or the value it had before the call if
   * no line did: a repeated subdirective keeps its last value, and a
   * subdirective without an argument changes nothing.
   */
  lemma UnmarshalLastWins(c: Config, blocks: seq<Block>, k: Subdirective)
    requires Unmarshal(c, blocks).err.None?
    ensures var lines := AllLines(blocks);
            var v := Get(Unmarshal(c, blocks).config, k);
            ((forall i :: 0 <= i < |lines| ==> !Assigns(lines[i], k)) ==> v == Get(c, k)) &&
            (forall i :: 0 <= i < |lines| && Assigns(lines[i], k) &&
                         (forall j :: i < j < |lines| ==> !Assigns(lines[j], k)) ==>
             v == lines[i].args[0])
  {
    ApplyBlocksSucceedsIff(c, blocks);
    assert forall j :: 0 <= j < |blocks| ==> blocks[j].args == [] by {
      forall j | 0 <= j < |blocks| ensures blocks[j].args == [] { assert BlockOk(blocks[j]); }
    }
    ApplyBlocksAsLines(c, blocks);
    ApplyLinesSucceedsIff(c, AllLines(blocks));
    ApplyLinesLastWins(c, AllLines(blocks), k);
  }

  /** The configurations of the plugin's table test, each accepted or rejected as the test expects. */
  lemma TestTableExamples()
    ensures Unmarshal(EmptyConfig, [Block("bluecat", [], [
              Line("server_url", ["https://bluecat.example.com"]),
              Line("username", ["admin"]),
              Line("password", ["secret"])])]).err.None?
    ensures Unmarshal(EmptyConfig, [Block("bluecat", [], [
              Line("username", ["admin"]),
              Line("password", ["secret"])])]).err == Some(MissingServerURL)
    ensures Unmarshal(EmptyConfig, [Block("bluecat", [], [
              Line("server_url", ["https://bluecat.example.com"]),
              Line("password", ["secret"])])]).err == Some(MissingUsername)
    ensures Unmarshal(EmptyConfig, [Block("bluecat", [], [
              Line("server_url", ["https://bluecat.example.com"]),
              Line("username", ["admin"])])]).err == Some(MissingPassword)
    ensures Unmarshal(EmptyConfig, [Block("bluecat", [], [
              Line("server_url", ["https://bluecat.example.com"]),
              Line("username", ["admin"]),
              Line("password", ["secret"]),
              Line("invalid_field", ["value"])])]).err == Some(UnrecognizedSubdirective("invalid_field"))
  {
  }

  /** The values test: every field takes the argument written for it. */
  lemma TestValuesExample()
    ensures Unmarshal(EmptyConfig, [Block("bluecat", [], [
              Line("server_url", ["https://bluecat.example.com"]),
              Line("username", ["testuser"]),
              Line("password", ["testpass"]),
              Line("configuration_name", ["TestConfig"]),
              Line("view_name", ["TestView"])])])
            == Outcome(Config("https://bluecat.example.com", "testuser", "testpass", "TestConfig", "TestView"), None)
  {
  }

  // ---------------------------------------------------------------------------
  // Coercing generic records into concrete ones
  // ---------------------------------------------------------------------------

  predicate IsAddressType(rtype: string)
  {
    rtype == "A" || rtype == "AAAA"
  }

  /** The records the coercion replaces: generic TXT and CNAME records, and generic A or AAAA records whose data parses as an address. */
  predicate Convertible(rec: Record, parseAddr: string -> Option<Addr>)
  {
    rec.Generic? &&
    (rec.rr.rtype == "TXT" || rec.rr.rtype == "CNAME" ||
     (IsAddressType(rec.rr.rtype) && parseAddr(rec.rr.data).Some?))
  }

  /**
   * A concrete record is returned as it is, provider data included; a generic
   * record of a kind the coercion knows becomes that concrete kind, without
   * provider data; anything else, an unparseable address included, is
   * returned unchanged.
   */
  function ConvertToConcreteType(rec: Record, parseAddr: string -> Option<Addr>): (r: Record)
    ensures rec.IsConcrete() ==> r == rec
    ensures r != rec <==> Convertible(rec, parseAddr)
    ensures r == rec || r.IsConcrete()
  {
    match rec
    case Generic(rr) =>
      if rr.rtype == "TXT" then
        TXT(rr.name, rr.ttl, rr.data, None)
      else if IsAddressType(rr.rtype) && parseAddr(rr.data).Some? then
        Address(rr.name, rr.ttl, parseAddr(rr.data).value, None)
      else if rr.rtype == "CNAME" then
        CNAME(rr.name, rr.ttl, rr.data, None)
      else
        rec
    case _ => rec
  }

  /**
   * A converted record carries the generic record's content: a TXT or CNAME
   * record reads back as the same generic record, and an address record keeps
   * the name, the TTL and the address the data parses to.
   */
  lemma ConvertKeepsContent(rec: Record, parseAddr: string -> Option<Addr>)
    requires rec.Generic?
    ensures var r := ConvertToConcreteType(rec, parseAddr);
            (rec.rr.rtype == "TXT" || rec.rr.rtype == "CNAME" ==>
               PlainRR(r) == Some(rec.rr) && r.providerData.None?) &&
            (IsAddressType(rec.rr.rtype) && parseAddr(rec.rr.data).Some? ==>
               r.Address? && r.name == rec.rr.name && r.ttl == rec.rr.ttl &&
               Some(r.ip) == parseAddr(rec.rr.data) && r.providerData.None?)
  {
  }

  /** Coercing twice is coercing once. */
  lemma ConvertIdempotent(rec: Record, parseAddr: string -> Option<Addr>)
    ensures var r := ConvertToConcreteType(rec, parseAddr);
            ConvertToConcreteType(r, parseAddr) == r
  {
  }

  /** An A and an AAAA record with the same parseable data are coerced alike: the address family is not checked against the type. */
  lemma AddressFamilyNotChecked(name: string, ttl: int, data: string, parseAddr: string -> Option<Addr>)
    requires parseAddr(data).Some?
    ensures ConvertToConcreteType(Generic(RR(name, "A", ttl, data)), parseAddr)
            == ConvertToConcreteType(Generic(RR(name, "AAAA", ttl, data)), parseAddr)
  {
    assert "A" != "TXT" && "A" != "CNAME" && "AAAA" != "TXT" && "AAAA" != "CNAME";
  }

  // ---------------------------------------------------------------------------
  // Matching the records to delete against the records in the zone
  // ---------------------------------------------------------------------------

  /** The message the failed fetch before a delete is wrapped in. */
  const FetchFailurePrefix := "failed to get existing records for deletion: "

  /** Two generic records are the same record when name, type and data agree; the TTL is not compared. */
  predicate SameRR(a: RR, b: RR)
  {
    a.name == b.name && a.rtype == b.rtype && a.data == b.data
  }

  /** The index of the first record in `existing`, from `from` on, whose generic view matches `want`. */
  function FirstMatch(want: RR, existing: seq<Record>, view: Record -> RR, from: nat): (r: Option<nat>)
    requires from <= |existing|
    ensures r.Some? ==> from <= r.value < |existing| && SameRR(view(existing[r.value]), want)
    ensures forall j :: from <= j < |existing| && (r.None? || j < r.value) ==>
                        !SameRR(view(existing[j]), want)
    decreases |existing| - from
  {
    if from == |existing| then None
    else if SameRR(view(existing[from]), want) then Some(from)
    else FirstMatch(want, existing, view, from + 1)
  }

  /** What one requested record contributes to the delete list: its first match, or nothing. */
  function Pick(rec: Record, existing: seq<Record>, view: Record -> RR): seq<Record>
  {
    match FirstMatch(view(rec), existing, view, 0)
    case None => []
    case Some(j) => [existing[j]]
  }

  /**
   * The records selected for deletion, in request order: for each requested
   * record, the first record of the zone that matches it. Every selected
   * record comes from the zone and matches some requested record, and there
   * are no more of them than requests.
   */
  function Selected(records: seq<Record>, existing: seq<Record>, view: Record -> RR): (r: seq<Record>)
    ensures |r| <= |records|
    ensures forall e :: e in r ==> e in existing
    ensures forall k :: 0 <= k < |r| ==>
              exists i :: 0 <= i < |records| && SameRR(view(r[k]), view(records[i]))
    decreases |records|
  {
    if records == [] then []
    else
      var n := |records| - 1;
      Selected(records[..n], existing, view) + Pick(records[n], existing, view)
  }

  /** Selection works request by request: selecting for two lists of requests is selecting for each, in order. */
  lemma {:induction false} SelectedAppend(a: seq<Record>, b: seq<Record>, existing: seq<Record>, view: Record -> RR)
    ensures Selected(a + b, existing, view) == Selected(a, existing, view) + Selected(b, existing, view)
    decreases |b|
  {
    if b == [] {
      assert a + b == a;
    } else {
      var n := |b| - 1;
      assert (a + b)[..|a| + n] == a + b[..n];
      assert (a + b)[|a| + n] == b[n];
      SelectedAppend(a, b[..n], existing, view);
    }
  }

  /** Nothing is selected exactly when no requested record matches any record of the zone. */
  lemma {:induction false} SelectedEmptyIff(records: seq<Record>, existing: seq<Record>, view: Record -> RR)
    ensures Selected(records, existing, view) == [] <==>
            forall i, j :: 0 <= i < |records| && 0 <= j < |existing| ==>
              !SameRR(view(existing[j]), view(records[i]))
    decreases |records|
  {
    if records != [] {
      var n := |records| - 1;
      var front := records[..n];
      SelectedEmptyIff(front, existing, view);
      assert forall i :: 0 <= i < n ==> front[i] == records[i];
      var m := FirstMatch(view(records[n]), existing, view, 0);
      if m.Some? {
        assert !SameRR(view(existing[m.value]), view(records[n])) ==> false;
      }
    }
  }

  // ---------------------------------------------------------------------------
  // The provider
  // ---------------------------------------------------------------------------

  /** The plugin's provider object: its five configuration fields, updated in place while parsing. */
  class Provider {
    var serverURL: string
    var username: string
    var password: string
    var configurationName: string
    var viewName: string

    /** A provider as the module registry creates it: every field empty. */
    constructor ()
      ensures Fields() == EmptyConfig
    {
      serverURL, username, password, configurationName, viewName := "", "", "", "", "";
    }

    function Fields(): Config
      reads this
    {
      Config(serverURL, username, password, configurationName, viewName)
    }

    /** Stores `v` in the field of `k`. */
    method Assign(k: Subdirective, v: string)
      modifies this
      ensures Fields() == Set(old(Fields()), k, v)
    {
      match k
      case ServerURL => serverURL := v;
      case Username => username := v;
      case Password => password := v;
      case ConfigurationName => configurationName := v;
      case ViewName => viewName := v;
    }

    /**
     * Reads the configuration from the tokenised directive blocks. The fields
     * change as the lines are read, so a failure leaves in place whatever was
     * assigned before it; the result and the final fields are those of
     * Unmarshal applied to the fields before the call.
     */
    method UnmarshalCaddyfile(blocks: seq<Block>) returns (err: Option<ParseError>)
      modifies this
      ensures Fields() == Unmarshal(old(Fields()), blocks).config
      ensures err == Unmarshal(old(Fields()), blocks).err
    {
      ghost var initial := Fields();
      var b := 0;
      while b < |blocks|
        invariant 0 <= b <= |blocks|
        invariant ApplyBlocks(initial, blocks) == ApplyBlocks(Fields(), blocks[b..])
      {
        var block := blocks[b];
        assert blocks[b..][0] == block && blocks[b..][1..] == blocks[b + 1..];
        if |block.args| > 0 {
          return Some(ArgErr(block.args[0]));
        }
        ghost var atBlock := Fields();
        var i := 0;
        while i < |block.lines|
          invariant 0 <= i <= |block.lines|
          invariant ApplyLines(atBlock, block.lines) == ApplyLines(Fields(), block.lines[i..])
        {
          var line := block.lines[i];
          assert block.lines[i..][0] == line && block.lines[i..][1..] == block.lines[i + 1..];
          match Lookup(line.key)
          case None =>
            return Some(UnrecognizedSubdirective(line.key));
          case Some(k) =>
            if |line.args| >= 1 {
              Assign(k, line.args[0]);
            }
            if |line.args| >= 2 {
              return Some(ArgErr(line.args[1]));
            }
          i := i + 1;
        }
        b := b + 1;
      }
      err := CheckRequired(Fields());
    }

    /**
     * Coerces every record to its concrete kind, element by element, and hands
     * the coerced list to the client; `appendClient` stands for the client's
     * answer. The forwarded list has the input's length, element i is the
     * coercion of input element i, and coercing it again changes nothing.
     */
    method AppendRecords(zone: string, records: seq<Record>, parseAddr: string -> Option<Addr>,
                         appendClient: (string, seq<Record>) -> Result<seq<Record>, string>)
      returns (forwarded: seq<Record>, result: Result<seq<Record>, string>)
      ensures |forwarded| == |records|
      ensures forall i :: 0 <= i < |records| ==>
                forwarded[i] == ConvertToConcreteType(records[i], parseAddr)
      ensures forall i :: 0 <= i < |forwarded| ==>
                ConvertToConcreteType(forwarded[i], parseAddr) == forwarded[i]
      ensures result == appendClient(zone, forwarded)
    {
      var converted := new Record[|records|];
      for i := 0 to |records|
        invariant forall j :: 0 <= j < i ==> converted[j] == ConvertToConcreteType(records[j], parseAddr)
      {
        converted[i] := ConvertToConcreteType(records[i], parseAddr);
      }
      forwarded := converted[..];
      forall i | 0 <= i < |records|
        ensures ConvertToConcreteType(forwarded[i], parseAddr) == forwarded[i]
      {
        ConvertIdempotent(records[i], parseAddr);
      }
      result := appendClient(zone, forwarded);
    }

    /**
     * Deletes records after recovering, for each, the zone's own copy with its
     * provider data. `fetched` is the client's listing of the zone and
     * `deleteClient` its answer to a delete; `sent` is the delete request
     * issued, if any. A failed listing is reported, wrapped, with no records;
     * when nothing matches, no delete is issued and the request is returned as
     * it was; otherwise the matches are sent and the client's answer returned.
     */
    method DeleteRecords(zone: string, records: seq<Record>, fetched: Result<seq<Record>, string>,
                         view: Record -> RR,
                         deleteClient: (string, seq<Record>) -> Result<seq<Record>, string>)
      returns (sent: Option<seq<Record>>, result: Result<seq<Record>, string>)
      ensures fetched.Failure? ==>
                sent == None && result == Failure(FetchFailurePrefix + fetched.error)
      ensures fetched.Success? && Selected(records, fetched.value, view) == [] ==>
                sent == None && result == Success(records)
      ensures fetched.Success? && Selected(records, fetched.value, view) != [] ==>
                sent == Some(Selected(records, fetched.value, view)) &&
                result == deleteClient(zone, Selected(records, fetched.value, view))
    {
      if fetched.Failure? {
        return None, Failure(FetchFailurePrefix + fetched.error);
      }
      var existing := fetched.value;
      var recordsToDelete: seq<Record> := [];
      for i := 0 to |records|
        invariant recordsToDelete == Selected(records[..i], existing, view)
      {
        var rr := view(records[i]);
        assert records[..i + 1][..i] == records[..i];
        ghost var before := recordsToDelete;
        var j := 0;
        while j < |existing|
          invariant 0 <= j <= |existing|
          invariant recordsToDelete == before
          invariant forall j' :: 0 <= j' < j ==> !SameRR(view(existing[j']), rr)
        {
          var candidate := view(existing[j]);
          if candidate.name == rr.name && candidate.rtype == rr.rtype && candidate.data == rr.data {
            recordsToDelete := recordsToDelete + [existing[j]];
            assert FirstMatch(rr, existing, view, 0) == Some(j);
            break;
          }
          j := j + 1;
        }
        assert j == |existing| ==> FirstMatch(rr, existing, view, 0).None?;
        assert recordsToDelete == before + Pick(records[i], existing, view);
      }
      assert records[..|records|] == records;
      if |recordsToDelete| == 0 {
        return None, Success(records);
      }
      sent := Some(recordsToDelete);
      result := deleteClient(zone, recordsToDelete);
    }
  }
}
