# Bluecat DNS provider plugin — verified model

The plugin lets the host server manage DNS records held by Bluecat Address
Manager. It reads five settings from a configuration block: server URL,
username, password, and an optional configuration name and view name. It then
passes record operations to the Bluecat client library. This model covers the
three parts of the plugin that carry logic of their own:

- **Configuration parsing** (`UnmarshalCaddyfile`). A `Provider` class holds
  the five string fields. It reads the tokenised directive blocks with nested
  loops and assigns fields in place. The method is proved to leave the fields,
  and return the error, that the specification function `Unmarshal` gives for
  the fields held before the call. Lemmas about `Unmarshal` state what is
  accepted, which error is reported, and which value each field ends up with.
- **Record coercion** (`convertToConcreteType`). A function turns a generic
  resource record into the concrete TXT, address or CNAME kind. The
  `AppendRecords` loop maps it over the request element by element before the
  request goes to the client.
- **Delete matching** (`DeleteRecords`). For each record to delete, a nested
  loop finds the first record of the zone with the same name, type and data.
  That copy carries the provider's correlation token. If nothing matches, the
  request is returned unchanged and no delete is issued.

Layout: `wrappers.dfy` has `Option` and `Result`. `caddyfile.dfy` has the
tokenised configuration: blocks with header arguments, and lines with a key and
arguments. `libdns.dfy` has the record types. `bluecat.dfy` models
`bluecat.go`.

Things outside the plugin are parameters:

- the IP-address parser (`parseAddr: string -> Option<Addr>`),
- the generic view of a record (`view: Record -> RR`),
- the client's listing of the zone (`fetched`),
- the client's answers to append and delete (`appendClient`, `deleteClient`).

## Model

| member | source | states |
|---|---|---|
| Bluecat.Lookup | bluecat.go:85-123 | a token is taken for a subdirective exactly when it is that subdirective's spelling; any other token names none of the five |
| Bluecat.Set | bluecat.go:86-120 | storing a value for a subdirective changes that field to the value and leaves the other four fields as they were |
| Bluecat.ApplyLine | bluecat.go:85-123 | a line is accepted iff its key is known and it has at most one argument; an unknown key fails with UnrecognizedSubdirective(key) and changes nothing; a second argument fails with ArgErr at that argument; the first argument is stored in its own field even when the line then fails |
| Bluecat.CheckRequired | bluecat.go:127-135 | no error iff server URL, username and password are all non-empty; otherwise the error names the first empty one in the order server URL, username, password |
| Bluecat.Unmarshal | bluecat.go:79-138 | a successful parse leaves server URL, username and password all non-empty |
| Bluecat.ApplyLinesSucceedsIff | bluecat.go:84-124 | the lines of a block are read without error iff every line is a known subdirective with at most one argument |
| Bluecat.ApplyBlocksSucceedsIff | bluecat.go:80-125 | the blocks are read without error iff no block has an argument after the directive name and every line is accepted |
| Bluecat.UnmarshalSucceedsIff | bluecat.go:79-138 | parsing succeeds iff the blocks are well formed and the resulting fields hold a server URL, a username and a password |
| Bluecat.UnrecognizedSubdirectiveFails | bluecat.go:121-122 | a line anywhere whose key is not one of the five subdirectives makes parsing fail |
| Bluecat.HeaderArgumentFails | bluecat.go:81-83 | an argument after the directive's name in any block makes parsing fail |
| Bluecat.ExtraArgumentFails | bluecat.go:87-120 | a line with two or more arguments makes parsing fail |
| Bluecat.ApplyLinesFirstFault | bluecat.go:84-124 | within a block, the first rejected line decides the error, whatever the fields hold by then |
| Bluecat.FirstFaultReported | bluecat.go:80-124 | the error returned for a bad line is that line's own error, when every earlier block and line was accepted |
| Bluecat.HeaderArgumentReported | bluecat.go:80-83 | an argument after the directive's name, with nothing rejected before it, is reported as ArgErr at that argument |
| Bluecat.ApplyLinesAppend | bluecat.go:84-124 | reading two runs of lines is reading the first, then the second from where the first left off, unless the first failed |
| Bluecat.ApplyBlocksAsLines | bluecat.go:80-125 | blocks without header arguments are read exactly like the concatenation of their lines |
| Bluecat.ApplyLinesLastWins | bluecat.go:86-120 | on accepted lines, a field nobody sets keeps its value, and a set field holds the argument of the last line that sets it |
| Bluecat.UnmarshalLastWins | bluecat.go:80-125 | after a successful parse, a field holds the argument of the last line that set it, or its value from before the call; a repeated key keeps its last value, and a key without an argument changes nothing |
| Bluecat.TestTableExamples | bluecat_test.go:19-95 | the table-test configurations: the valid one is accepted; missing server URL, username or password and an invalid subdirective are rejected with the matching error |
| Bluecat.TestValuesExample | bluecat_test.go:97-129 | the values-test configuration sets all five fields to the values written for them |
| Bluecat.Provider.constructor | bluecat.go:38-40 | a new provider has all five fields empty |
| Bluecat.Provider.Assign | bluecat.go:86-120 | storing into a subdirective's field changes that field alone |
| Bluecat.Provider.UnmarshalCaddyfile | bluecat.go:79-138 | the fields after the call and the returned error are those of Unmarshal applied to the fields before the call; assignments made before a failure stay in place |
| Bluecat.ConvertToConcreteType | bluecat.go:174-212 | a concrete record is returned unchanged, provider data included; the result differs from the input iff the input is a generic TXT or CNAME record, or a generic A/AAAA record whose data parses; a result that is still generic is the input |
| Bluecat.ConvertKeepsContent | bluecat.go:184-208 | a coerced TXT or CNAME record reads back as the generic record it came from, without provider data; a coerced address keeps the name and TTL and holds the parsed address |
| Bluecat.ConvertIdempotent | bluecat.go:176-179 | coercing an already coerced record changes nothing |
| Bluecat.AddressFamilyNotChecked | bluecat.go:193-201 | a generic A record and a generic AAAA record with the same parseable data become the same address record |
| Bluecat.Provider.AppendRecords | bluecat.go:146-152 | the list sent to the client has the request's length; element i is the coercion of request element i; coercing any sent element again changes nothing; the client's answer is returned |
| Bluecat.FirstMatch | bluecat.go:241-249 | returns the index of the first zone record whose name, type and data equal the wanted record's, or none when no zone record does |
| Bluecat.Selected | bluecat.go:237-250 | no more records are selected than were requested; every selected record is a record of the zone and matches some requested record |
| Bluecat.SelectedAppend | bluecat.go:238-250 | selection goes request by request: the selection for two request lists is the first one's selection followed by the second's |
| Bluecat.SelectedEmptyIff | bluecat.go:237-257 | nothing is selected iff no requested record matches any zone record on name, type and data |
| Bluecat.Provider.DeleteRecords | bluecat.go:220-260 | a failed listing returns the wrapped error, no records and no delete; when nothing matches, no delete is issued and the request is returned; otherwise exactly the selected records are sent and the client's answer is returned |

## Left out

- `Provision` (bluecat.go:45-68): it runs the host's placeholder replacer and logger, whose behaviour is not visible here. It then copies the five fields into the client.
- `GetRecords` and `SetRecords` (bluecat.go:141-143, 215-217) only forward to the client. The client's own list, append and delete calls are likewise not modelled: their results are parameters (`fetched`, `appendClient`, `deleteClient`).
- The host tokenizer (`Next`, `NextArg`, `NextBlock`, `Nesting`): the model starts from already-tokenised blocks. Nested sub-blocks under a subdirective are not represented. The file and line position that the host adds to error messages is not represented either.
- IP address parsing is a parameter, `parseAddr`, with no assumed behaviour.
- The generic view of a concrete record is a parameter, `view`, used by delete matching. `PlainRR` gives that view only for TXT, CNAME, NS and generic records. The data formats of address, MX and SRV records are not modelled.
- Record kinds of the interface other than the six concrete kinds and the generic resource record (CAA, service-binding and the like) are not modelled. The coercion treats such records through their generic view.
- Debug output in `AppendRecords` and `DeleteRecords` (bluecat.go:154-166, 223-226, 234, 245, 252), the request context, module registration and the interface guards (bluecat.go:30-42, 263-270): I/O and plumbing with no effect on results.
- TTLs are unbounded integers, not 64-bit durations. No arithmetic is done on them.
