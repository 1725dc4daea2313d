/** The QR payload formatter (services/qrFormatter.ts): the text encoded in a
    QR code for each kind of content. The form data is a map from field name
    to the text typed; a missing field and an empty one are alike. The
    conversions the program delegates to the platform (URI encoding, date to
    UTC text, number formatting) are parameters; the two that can throw give
    None for a throw. */
module QrFormatter {
  import opened Util

  /** The form data of one QR type. */
  type QrData = map<string, string>

  /** The platform conversions: `encodeURIComponent`, the whole of `toUTC` on
      a non-empty date (`new Date(...).toISOString()` with its dashes, colons
      and milliseconds then removed, so the parameter returns the compacted
      text such as `20240101T120000Z`; None when the date is invalid and the
      conversion throws), and `parseFloat(...).toFixed(2)`. */
  datatype Platform = Platform(
    encodeUri: string -> Option<string>,
    toUtc: string -> Option<string>,
    amountToFixed: string -> string)

  /** `data.key || ''`. */
  function Field(d: QrData, key: string): (v: string)
    ensures key !in d ==> v == ""
    ensures key in d ==> v == d[key]
  {
    if key in d then d[key] else ""
  }

  /** `value || fallback`. */
  function OrElse(value: string, fallback: string): (r: string)
    ensures value != "" ==> r == value
    ensures value == "" ==> r == fallback
  {
    if value == "" then fallback else value
  }

  // ---------------------------------------------------------------- lines

  /** Lines, each followed by a line break. */
  function Terminated(lines: seq<string>): string
  {
    if |lines| == 0 then "" else lines[0] + "\n" + Terminated(lines[1..])
  }

  lemma {:induction false} TerminatedSnoc(lines: seq<string>, line: string)
    ensures Terminated(lines + [line]) == Terminated(lines) + line + "\n"
  {
    if |lines| > 0 {
      assert (lines + [line])[1..] == lines[1..] + [line];
      TerminatedSnoc(lines[1..], line);
    } else {
      assert [line][1..] == [];
    }
  }

  /** Terminated lines and then a last line are those lines joined by line
      breaks. */
  lemma {:induction false} JoinTerminated(lines: seq<string>, last: string)
    ensures Join(lines + [last], "\n") == Terminated(lines) + last
  {
    if |lines| > 0 {
      assert (lines + [last])[1..] == lines[1..] + [last];
      JoinTerminated(lines[1..], last);
    }
  }

  /** A line present only when its value is non-empty (`if (value) text += …`). */
  function OptionalLine(tag: string, value: string): (ls: seq<string>)
    ensures value == "" <==> ls == []
    ensures value != "" ==> ls == [tag + value]
  {
    if value == "" then [] else [tag + value]
  }

  predicate NoLineBreak(s: string)
  {
    '\n' !in s
  }

  // ---------------------------------------------------------------- vCard

  /** The lines of the vCard 3.0: BEGIN, VERSION, the structured name N and the
      formatted name FN, then TEL, EMAIL and ORG for the fields filled in, and
      END (sections 3.1.1, 3.1.2, 3.3.1, 3.3.2 and 3.5.5 of RFC 2426). */
  function VCardLines(d: QrData): (ls: seq<string>)
    ensures |ls| == 5 + |OptionalLine("", Field(d, "phone"))| + |OptionalLine("", Field(d, "email"))|
                      + |OptionalLine("", Field(d, "company"))|
    ensures ls[0] == "BEGIN:VCARD" && ls[1] == "VERSION:3.0" && ls[|ls| - 1] == "END:VCARD"
    ensures ls[2] == "N:" + Field(d, "lastName") + ";" + Field(d, "firstName")
    ensures ls[3] == "FN:" + Field(d, "firstName") + " " + Field(d, "lastName")
  {
    ["BEGIN:VCARD", "VERSION:3.0",
     "N:" + Field(d, "lastName") + ";" + Field(d, "firstName"),
     "FN:" + Field(d, "firstName") + " " + Field(d, "lastName")]
    + OptionalLine("TEL;TYPE=CELL:", Field(d, "phone"))
    + OptionalLine("EMAIL:", Field(d, "email"))
    + OptionalLine("ORG:", Field(d, "company"))
    + ["END:VCARD"]
  }

  /** The vCard text: its lines joined by line breaks. */
  function VCardText(d: QrData): string
  {
    Join(VCardLines(d), "\n")
  }

  /** `formatVCard`, appending line by line. */
  method FormatVCard(d: QrData) returns (vCard: string)
    ensures vCard == VCardText(d)
  {
    var lastName, firstName := Field(d, "lastName"), Field(d, "firstName");
    ghost var lines: seq<string> := ["BEGIN:VCARD", "VERSION:3.0"];
    vCard := "BEGIN:VCARD\nVERSION:3.0\n";
    VCardHeader();
    vCard, lines := AppendLine(vCard, lines, "N:" + lastName + ";" + firstName);
    vCard, lines := AppendLine(vCard, lines, "FN:" + firstName + " " + lastName);
    assert lines == ["BEGIN:VCARD", "VERSION:3.0", "N:" + lastName + ";" + firstName,
                     "FN:" + firstName + " " + lastName];
    vCard, lines := AppendOptional(vCard, lines, "TEL;TYPE=CELL:", Field(d, "phone"));
    vCard, lines := AppendOptional(vCard, lines, "EMAIL:", Field(d, "email"));
    vCard, lines := AppendOptional(vCard, lines, "ORG:", Field(d, "company"));
    vCard := vCard + "END:VCARD";
    JoinTerminated(lines, "END:VCARD");
    assert lines + ["END:VCARD"] == VCardLines(d);
  }

  lemma VCardHeader()
    ensures "BEGIN:VCARD\nVERSION:3.0\n" == Terminated(["BEGIN:VCARD", "VERSION:3.0"])
  {
    var ls := ["BEGIN:VCARD", "VERSION:3.0"];
    assert ls[1..] == ["VERSION:3.0"];
    assert ls[1..][1..] == [];
    assert Terminated(ls) == "BEGIN:VCARD" + "\n" + ("VERSION:3.0" + "\n" + "");
  }

  /** `text += line + '\n'`, keeping `text` the terminated lines so far. */
  method AppendLine(text: string, ghost lines: seq<string>, line: string)
    returns (text': string, ghost lines': seq<string>)
    requires text == Terminated(lines)
    ensures lines' == lines + [line] && text' == Terminated(lines')
  {
    text' := text + line + "\n";
    TerminatedSnoc(lines, line);
    lines' := lines + [line];
  }

  /** `if (value) text += tag + value + '\n'`, keeping `text` the terminated
      lines so far. */
  method AppendOptional(text: string, ghost lines: seq<string>, tag: string, value: string)
    returns (text': string, ghost lines': seq<string>)
    requires text == Terminated(lines)
    ensures lines' == lines + OptionalLine(tag, value) && text' == Terminated(lines')
  {
    text', lines' := text, lines;
    if value != "" {
      text' := text + tag + value + "\n";
      TerminatedSnoc(lines, tag + value);
      lines' := lines + [tag + value];
    }
  }

  /** Fields without line breaks give back the vCard's lines when the text is
      split at line breaks. */
  lemma {:induction false} VCardSplits(d: QrData)
    requires forall k :: k in d ==> NoLineBreak(d[k])
    ensures Split(VCardText(d), '\n') == VCardLines(d)
  {
    var ls := VCardLines(d);
    VCardLinesUnbroken(d);
    assert forall k :: 0 <= k < |ls| ==> '\n' !in ls[k];
    SplitJoin(ls, '\n');
    assert [] + ['\n'] == "\n";
  }

  /** No line holds a line break. */
  predicate Unbroken(ls: seq<string>)
  {
    forall k :: 0 <= k < |ls| ==> NoLineBreak(ls[k])
  }

  lemma UnbrokenConcat(a: seq<string>, b: seq<string>)
    requires Unbroken(a) && Unbroken(b)
    ensures Unbroken(a + b)
  {
    forall k | 0 <= k < |a + b|
      ensures NoLineBreak((a + b)[k])
    {
      if k >= |a| {
        assert (a + b)[k] == b[k - |a|];
      }
    }
  }

  lemma VCardLinesUnbroken(d: QrData)
    requires forall k :: k in d ==> NoLineBreak(d[k])
    ensures Unbroken(VCardLines(d))
  {
    var first, last := Field(d, "firstName"), Field(d, "lastName");
    assert NoLineBreak(first) && NoLineBreak(last);
    var fixed := ["BEGIN:VCARD", "VERSION:3.0", "N:" + last + ";" + first, "FN:" + first + " " + last];
    assert Unbroken(fixed);
    var tel, email, org := OptionalLine("TEL;TYPE=CELL:", Field(d, "phone")),
      OptionalLine("EMAIL:", Field(d, "email")), OptionalLine("ORG:", Field(d, "company"));
    assert Unbroken(tel) && Unbroken(email) && Unbroken(org) && Unbroken(["END:VCARD"]);
    UnbrokenConcat(fixed, tel);
    UnbrokenConcat(fixed + tel, email);
    UnbrokenConcat(fixed + tel + email, org);
    UnbrokenConcat(fixed + tel + email + org, ["END:VCARD"]);
  }

  /** The vCard's lines by part: the four fixed lines, the optional ones, the
      END line. */
  lemma VCardParts(d: QrData, x: string)
    ensures x in VCardLines(d) <==>
      || x in ["BEGIN:VCARD", "VERSION:3.0"]
      || x == "N:" + Field(d, "lastName") + ";" + Field(d, "firstName")
      || x == "FN:" + Field(d, "firstName") + " " + Field(d, "lastName")
      || x in OptionalLine("TEL;TYPE=CELL:", Field(d, "phone"))
      || x in OptionalLine("EMAIL:", Field(d, "email"))
      || x in OptionalLine("ORG:", Field(d, "company"))
      || x == "END:VCARD"
  {
  }

  /** A TEL line appears exactly when a phone number is filled in. */
  lemma VCardTelLine(d: QrData)
    ensures ("TEL;TYPE=CELL:" + Field(d, "phone") in VCardLines(d)) <==> Field(d, "phone") != ""
  {
    var tel := "TEL;TYPE=CELL:" + Field(d, "phone");
    assert tel[0] == 'T';
    assert ("N:" + Field(d, "lastName") + ";" + Field(d, "firstName"))[0] == 'N';
    assert ("FN:" + Field(d, "firstName") + " " + Field(d, "lastName"))[0] == 'F';
    assert ("EMAIL:" + Field(d, "email"))[0] == 'E';
    assert ("ORG:" + Field(d, "company"))[0] == 'O';
    VCardParts(d, tel);
  }

  /** An EMAIL line appears exactly when an address is filled in. */
  lemma VCardEmailLine(d: QrData)
    ensures ("EMAIL:" + Field(d, "email") in VCardLines(d)) <==> Field(d, "email") != ""
  {
    var email := "EMAIL:" + Field(d, "email");
    assert email[0] == 'E' && email[1] == 'M';
    assert ("N:" + Field(d, "lastName") + ";" + Field(d, "firstName"))[0] == 'N';
    assert ("FN:" + Field(d, "firstName") + " " + Field(d, "lastName"))[0] == 'F';
    assert ("TEL;TYPE=CELL:" + Field(d, "phone"))[0] == 'T';
    assert ("ORG:" + Field(d, "company"))[0] == 'O';
    VCardParts(d, email);
  }

  /** An ORG line appears exactly when a company is filled in. */
  lemma VCardOrgLine(d: QrData)
    ensures ("ORG:" + Field(d, "company") in VCardLines(d)) <==> Field(d, "company") != ""
  {
    var org := "ORG:" + Field(d, "company");
    assert org[0] == 'O';
    assert ("N:" + Field(d, "lastName") + ";" + Field(d, "firstName"))[0] == 'N';
    assert ("FN:" + Field(d, "firstName") + " " + Field(d, "lastName"))[0] == 'F';
    assert ("TEL;TYPE=CELL:" + Field(d, "phone"))[0] == 'T';
    assert ("EMAIL:" + Field(d, "email"))[0] == 'E';
    VCardParts(d, org);
  }

  // ---------------------------------------------------------------- event

  /** The VEVENT lines (section 3.6.1 of RFC 5545): BEGIN, then SUMMARY,
      LOCATION, DTSTART and DTEND for the fields filled in, then END. None
      when a date's conversion throws. */
  function EventLines(d: QrData, p: Platform): (r: Option<seq<string>>)
    ensures r.Some? <==> (Field(d, "dtstart") != "" ==> p.toUtc(Field(d, "dtstart")).Some?)
                         && (Field(d, "dtend") != "" ==> p.toUtc(Field(d, "dtend")).Some?)
    ensures r.Some? ==> |r.value| >= 2 && r.value[0] == "BEGIN:VEVENT" && r.value[|r.value| - 1] == "END:VEVENT"
  {
    var start, end := Field(d, "dtstart"), Field(d, "dtend");
    if start != "" && p.toUtc(start).None? then None
    else if end != "" && p.toUtc(end).None? then None
    else
      var startLine := if start == "" then [] else ["DTSTART:" + p.toUtc(start).value];
      var endLine := if end == "" then [] else ["DTEND:" + p.toUtc(end).value];
      Some(["BEGIN:VEVENT"]
           + OptionalLine("SUMMARY:", Field(d, "summary"))
           + OptionalLine("LOCATION:", Field(d, "location"))
           + startLine + endLine + ["END:VEVENT"])
  }

  function EventText(d: QrData, p: Platform): Option<string>
  {
    var ls := EventLines(d, p);
    if ls.None? then None else Some(Join(ls.value, "\n"))
  }

  /** `formatEvent`, appending line by line; None when `toUTC` throws. */
  method FormatEvent(d: QrData, p: Platform) returns (r: Option<string>)
    ensures r == EventText(d, p)
  {
    var event := "BEGIN:VEVENT\n";
    ghost var lines: seq<string> := ["BEGIN:VEVENT"];
    assert event == Terminated(lines) by {
      assert lines[1..] == [];
    }
    event, lines := AppendOptional(event, lines, "SUMMARY:", Field(d, "summary"));
    event, lines := AppendOptional(event, lines, "LOCATION:", Field(d, "location"));
    ghost var head := lines;
    var start := Field(d, "dtstart");
    ghost var startLine: seq<string> := [];
    if start != "" {
      var utc := p.toUtc(start);
      if utc.None? {
        return None;
      }
      event, lines := AppendLine(event, lines, "DTSTART:" + utc.value);
      startLine := ["DTSTART:" + utc.value];
    }
    assert lines == head + startLine;
    var end := Field(d, "dtend");
    ghost var endLine: seq<string> := [];
    if end != "" {
      var utc := p.toUtc(end);
      if utc.None? {
        return None;
      }
      event, lines := AppendLine(event, lines, "DTEND:" + utc.value);
      endLine := ["DTEND:" + utc.value];
    }
    assert lines == head + startLine + endLine;
    event := event + "END:VEVENT";
    JoinTerminated(lines, "END:VEVENT");
    assert EventLines(d, p) == Some(head + startLine + endLine + ["END:VEVENT"]);
    r := Some(event);
  }

  /** With no dates the event is exactly its summary and location lines. */
  lemma EventWithoutDates(d: QrData, p: Platform)
    requires Field(d, "dtstart") == "" && Field(d, "dtend") == ""
    ensures EventLines(d, p) == Some(["BEGIN:VEVENT"] + OptionalLine("SUMMARY:", Field(d, "summary"))
                                     + OptionalLine("LOCATION:", Field(d, "location")) + ["END:VEVENT"])
  {
    var a := ["BEGIN:VEVENT"] + OptionalLine("SUMMARY:", Field(d, "summary"))
             + OptionalLine("LOCATION:", Field(d, "location"));
    assert EventLines(d, p).Some?;
    assert EventLines(d, p).value == a + [] + [] + ["END:VEVENT"];
    assert a + [] + [] == a;
  }

  // ---------------------------------------------------------------- WIFI

  /** `formatWifi`: encryption defaulting to `nopass`, values verbatim. */
  function WifiText(d: QrData): string
  {
    WifiPayload(OrElse(Field(d, "encryption"), "nopass"), Field(d, "ssid"), Field(d, "password"))
  }

  /** `WIFI:T:<encryption>;S:<ssid>;P:<password>;;`. */
  function WifiPayload(encryption: string, ssid: string, password: string): string
  {
    "WIFI:T:" + encryption + ";S:" + ssid + ";P:" + password + ";;"
  }

  /** Values without `;` are read back from the fields between the separators;
      with one, the fields shift, since nothing is escaped. */
  lemma WifiSplits(encryption: string, ssid: string, password: string)
    requires ';' !in encryption && ';' !in ssid && ';' !in password
    ensures Split(WifiPayload(encryption, ssid, password), ';')
      == ["WIFI:T:" + encryption, "S:" + ssid, "P:" + password, "", ""]
  {
    var ps := ["WIFI:T:" + encryption, "S:" + ssid, "P:" + password, "", ""];
    WifiJoin(encryption, ssid, password);
    SplitJoin(ps, ';');
  }

  /** The text of a WIFI form whose values hold no `;` splits into the
      encryption (`nopass` when empty), the SSID and the password. */
  lemma WifiTextFields(d: QrData)
    requires ';' !in Field(d, "encryption") && ';' !in Field(d, "ssid") && ';' !in Field(d, "password")
    ensures var e := if Field(d, "encryption") == "" then "nopass" else Field(d, "encryption");
      Split(WifiText(d), ';') == ["WIFI:T:" + e, "S:" + Field(d, "ssid"), "P:" + Field(d, "password"), "", ""]
  {
    WifiSplits(OrElse(Field(d, "encryption"), "nopass"), Field(d, "ssid"), Field(d, "password"));
  }

  /** The Wi-Fi payload is its five parts joined with `;`. */
  lemma WifiJoin(encryption: string, ssid: string, password: string)
    ensures Join(["WIFI:T:" + encryption, "S:" + ssid, "P:" + password, "", ""], [';'])
      == WifiPayload(encryption, ssid, password)
  {
    var ps := ["WIFI:T:" + encryption, "S:" + ssid, "P:" + password, "", ""];
    assert ps[4..] == [""] && ps[3..][1..] == ps[4..] && ps[2..][1..] == ps[3..] && ps[1..][1..] == ps[2..];
    assert Join(ps[4..], ";") == "";
    assert Join(ps[3..], ";") == ";";
    assert Join(ps[2..], ";") == "P:" + password + ";;";
    assert Join(ps[1..], ";") == "S:" + ssid + ";P:" + password + ";;";
  }

  // ---------------------------------------------------------------- SEPA

  /** The twelve data elements of the EPC069-12 SEPA Credit Transfer QR code:
      service tag, version 002, character set 1 (UTF-8), identification SCT,
      BIC, beneficiary name, IBAN, amount, purpose, creditor reference,
      remittance information, beneficiary-to-originator hint. */
  function SepaLines(d: QrData, p: Platform): (ls: seq<string>)
    ensures |ls| == 12
    ensures ls[..4] == ["BCD", "002", "1", "SCT"]
    ensures |ls[4]| <= 11 && ls[4] <= Field(d, "bic")
    ensures |ls[5]| <= 70 && ls[5] <= Field(d, "name")
    ensures forall i :: 0 <= i < |ls[6]| ==> !IsWhitespace(ls[6][i])
    ensures ls[7] == (if Field(d, "amount") == "" then "" else "EUR" + p.amountToFixed(Field(d, "amount")))
    ensures ls[8] == "" && ls[9] == ""
    ensures |ls[10]| <= 140 && ls[10] <= Field(d, "remittance")
    ensures |ls[11]| <= 70 && ls[11] <= Field(d, "hint")
    ensures ls[4] == Take(Field(d, "bic"), 11) && ls[5] == Take(Field(d, "name"), 70)
    ensures ls[6] == RemoveWhitespace(Field(d, "iban"))
    ensures ls[10] == Take(Field(d, "remittance"), 140) && ls[11] == Take(Field(d, "hint"), 70)
  {
    var amount := if Field(d, "amount") == "" then "" else "EUR" + p.amountToFixed(Field(d, "amount"));
    ["BCD", "002", "1", "SCT",
     Take(Field(d, "bic"), 11),
     Take(Field(d, "name"), 70),
     RemoveWhitespace(Field(d, "iban")),
     amount, "", "",
     Take(Field(d, "remittance"), 140),
     Take(Field(d, "hint"), 70)]
  }

  /** `lines.join('\n').trim()`. */
  function SepaText(d: QrData, p: Platform): string
  {
    Trim(Join(SepaLines(d, p), "\n"))
  }

  /** An IBAN typed in groups, as printed on statements, is written without
      its spaces: the beneficiary's account is the same either way. */
  lemma SepaIbanGrouped(d: QrData, p: Platform, a: string, b: string)
    requires forall i :: 0 <= i < |a| ==> !IsWhitespace(a[i])
    requires forall i :: 0 <= i < |b| ==> !IsWhitespace(b[i])
    requires "iban" in d && d["iban"] == a + " " + b
    ensures SepaLines(d, p)[6] == a + b
    ensures SepaLines(d, p)[6] == SepaLines(d["iban" := a + b], p)[6]
  {
    RemoveWhitespaceBetween(a, b);
    assert Field(d, "iban") == a + " " + b;
    assert Field(d["iban" := a + b], "iban") == a + b;
  }

  /** The payload opens with the four header elements, whatever the fields. */
  lemma SepaHeader(d: QrData, p: Platform)
    ensures |SepaText(d, p)| >= 13 && SepaText(d, p)[..13] == "BCD\n002\n1\nSCT"
  {
    HeaderKept(SepaLines(d, p));
  }

  lemma HeaderKept(ls: seq<string>)
    requires |ls| > 4 && ls[..4] == ["BCD", "002", "1", "SCT"]
    ensures var r := Trim(Join(ls, "\n")); |r| >= 13 && r[..13] == "BCD\n002\n1\nSCT"
  {
    var j := Join(ls, "\n");
    HeaderJoin(ls);
    var header := "BCD\n002\n1\nSCT";
    assert |header| == 13;
    assert j[..13] == header;
    assert j[0] == 'B' && j[12] == 'T';
    TrimStartNoop(j);
    var r := TrimEnd(j);
    assert |r| > 12 by {
      assert !IsWhitespace(j[12]);
    }
    assert r[..13] == j[..13];
  }

  lemma HeaderJoin(ls: seq<string>)
    requires |ls| > 4 && ls[..4] == ["BCD", "002", "1", "SCT"]
    ensures Join(ls, "\n") == "BCD\n002\n1\nSCT" + ("\n" + Join(ls[4..], "\n"))
  {
    var rest := Join(ls[4..], "\n");
    assert ls[0] == ls[..4][0] && ls[1] == ls[..4][1] && ls[2] == ls[..4][2] && ls[3] == ls[..4][3];
    assert ls[0] == "BCD" && ls[1] == "002" && ls[2] == "1" && ls[3] == "SCT";
    assert Join(ls[3..], "\n") == "SCT" + "\n" + rest by {
      assert ls[3..][0] == "SCT" && ls[3..][1..] == ls[4..];
    }
    assert Join(ls[2..], "\n") == "1" + "\n" + ("SCT" + "\n" + rest) by {
      assert ls[2..][0] == "1" && ls[2..][1..] == ls[3..];
    }
    assert Join(ls[1..], "\n") == "002" + "\n" + ("1" + "\n" + ("SCT" + "\n" + rest)) by {
      assert ls[1..][0] == "002" && ls[1..][1..] == ls[2..];
    }
    assert Join(ls, "\n") == "BCD" + "\n" + ("002" + "\n" + ("1" + "\n" + ("SCT" + "\n" + rest)));
    HeaderFlat(rest);
  }

  lemma HeaderFlat(rest: string)
    ensures "BCD" + "\n" + ("002" + "\n" + ("1" + "\n" + ("SCT" + "\n" + rest)))
         == "BCD\n002\n1\nSCT" + ("\n" + rest)
  {
  }

  /** Whitespace is trimmed only from the ends: when the hint ends in a
      non-space character and no field holds a line break, splitting the
      payload at line breaks gives back all twelve elements. */
  lemma SepaSplits(d: QrData, p: Platform)
    requires forall k :: k in d ==> NoLineBreak(d[k])
    requires NoLineBreak(p.amountToFixed(Field(d, "amount")))
    requires var hint := Take(Field(d, "hint"), 70); |hint| > 0 && !IsWhitespace(hint[|hint| - 1])
    ensures Split(SepaText(d, p), '\n') == SepaLines(d, p)
  {
    var ls := SepaLines(d, p);
    SepaLinesUnbroken(d, p);
    assert ls[..4] == ["BCD", "002", "1", "SCT"];
    assert ls[0] == "BCD";
    assert ls[11] == Take(Field(d, "hint"), 70);
    UntrimmedSplits(ls);
  }

  /** No element of the SEPA payload holds a line break when no field does. */
  lemma SepaLinesUnbroken(d: QrData, p: Platform)
    requires forall k :: k in d ==> NoLineBreak(d[k])
    requires NoLineBreak(p.amountToFixed(Field(d, "amount")))
    ensures Unbroken(SepaLines(d, p))
  {
    var ls := SepaLines(d, p);
    assert NoLineBreak(Field(d, "bic")) && NoLineBreak(Field(d, "name")) && NoLineBreak(Field(d, "remittance"))
      && NoLineBreak(Field(d, "hint"));
    assert ls[..4] == ["BCD", "002", "1", "SCT"];
    PrefixNoLineBreak(ls[4], Field(d, "bic"));
    PrefixNoLineBreak(ls[5], Field(d, "name"));
    PrefixNoLineBreak(ls[10], Field(d, "remittance"));
    PrefixNoLineBreak(ls[11], Field(d, "hint"));
    assert NoLineBreak(ls[6]) by {
      assert IsWhitespace('\n');
    }
    forall k | 0 <= k < |ls|
      ensures NoLineBreak(ls[k])
    {
      if k < 4 {
        assert ls[k] == ls[..4][k];
      }
    }
  }

  lemma PrefixNoLineBreak(a: string, b: string)
    requires a <= b && NoLineBreak(b)
    ensures NoLineBreak(a)
  {
  }

  lemma UntrimmedSplits(ls: seq<string>)
    requires |ls| > 0 && |ls[0]| > 0 && !IsWhitespace(ls[0][0])
    requires var last := ls[|ls| - 1]; |last| > 0 && !IsWhitespace(last[|last| - 1])
    requires Unbroken(ls)
    ensures Split(Trim(Join(ls, "\n")), '\n') == ls
  {
    var j := Join(ls, "\n");
    JoinLast(ls, "\n");
    TrimStartNoop(j);
    TrimEndNoWhitespaceEnd(j);
    assert [] + ['\n'] == "\n";
    SplitJoin(ls, '\n');
  }

  /** A join of several parts starts with the first and ends with the last. */
  lemma {:induction false} JoinLast(parts: seq<string>, sep: string)
    requires |parts| > 0
    ensures var j := Join(parts, sep);
      parts[0] <= j && |parts[|parts| - 1]| <= |j| && j[|j| - |parts[|parts| - 1]|..] == parts[|parts| - 1]
  {
    if |parts| > 1 {
      JoinLast(parts[1..], sep);
    }
  }

  // ---------------------------------------------------------------- dispatch

  /** The QR types the switch knows. */
  datatype QrKind = Url | Text | Phone | Sms | Email | VCard | Wifi | Geo | Event | Sepa

  /** The `case` labels of the switch. */
  function KindOf(typeId: string): (k: Option<QrKind>)
  {
    match typeId
    case "url" => Some(Url)
    case "text" => Some(Text)
    case "phone" => Some(Phone)
    case "sms" => Some(Sms)
    case "email" => Some(Email)
    case "vcard" => Some(VCard)
    case "wifi" => Some(Wifi)
    case "geo" => Some(Geo)
    case "event" => Some(Event)
    case "sepa" => Some(Sepa)
    case _ => None
  }

  /** The type id the switch maps to each kind. */
  function IdOf(k: QrKind): string
  {
    match k
    case Url => "url"
    case Text => "text"
    case Phone => "phone"
    case Sms => "sms"
    case Email => "email"
    case VCard => "vcard"
    case Wifi => "wifi"
    case Geo => "geo"
    case Event => "event"
    case Sepa => "sepa"
  }

  /** Each label selects its own kind. */
  lemma KindOfId(k: QrKind)
    ensures KindOf(IdOf(k)) == Some(k)
  {
    match k
    case Url =>
    case Text =>
    case Phone =>
    case Sms =>
    case Email =>
    case VCard =>
    case Wifi =>
    case Geo =>
    case Event =>
    case Sepa =>
  }

  /** Only the ten labels select a kind. */
  lemma IdOfKind(typeId: string)
    requires KindOf(typeId).Some?
    ensures IdOf(KindOf(typeId).value) == typeId
  {
  }

  /** The payload of one kind; "Error" when a conversion throws. */
  function Payload(k: QrKind, d: QrData, p: Platform): string
  {
    match k
    case Url => Field(d, "url")
    case Text => Field(d, "text")
    case Phone => "tel:" + Field(d, "phone")
    case Sms => "smsto:" + Field(d, "phone") + ":" + Field(d, "message")
    case Email =>
      var subject := p.encodeUri(Field(d, "subject"));
      var body := p.encodeUri(Field(d, "body"));
      if subject.None? || body.None? then "Error"
      else "mailto:" + Field(d, "email") + "?subject=" + subject.value + "&body=" + body.value
    case VCard => VCardText(d)
    case Wifi => WifiText(d)
    case Geo => "geo:" + OrElse(Field(d, "latitude"), "0") + "," + OrElse(Field(d, "longitude"), "0")
    case Event => var e := EventText(d, p); if e.None? then "Error" else e.value
    case Sepa => SepaText(d, p)
  }

  /** `formatQrData`: no data, or data without fields, gives ''; so does an
      unknown type id; otherwise the payload of the id's kind. */
  function FormatQrData(typeId: string, data: Option<QrData>, p: Platform): (r: string)
    ensures data.None? || |data.value| == 0 || KindOf(typeId).None? ==> r == ""
    ensures data.Some? && |data.value| > 0 && KindOf(typeId).Some? ==>
      r == Payload(KindOf(typeId).value, data.value, p)
  {
    if data.None? || |data.value| == 0 then ""
    else
      var kind := KindOf(typeId);
      if kind.None? then "" else Payload(kind.value, data.value, p)
  }

  /** URI payloads carry their scheme (`tel:` of RFC 3966, `smsto:`, `geo:`
      of RFC 5870) and the fields are read back from them. */
  lemma PhonePayload(d: QrData, p: Platform)
    ensures var r := Payload(Phone, d, p); r[..4] == "tel:" && r[4..] == Field(d, "phone")
  {
  }

  lemma SmsPayload(d: QrData, p: Platform)
    requires ':' !in Field(d, "phone")
    ensures var r := Payload(Sms, d, p);
      && r[..6] == "smsto:" && BeforeFirst(r[6..], ':') == Field(d, "phone")
      && r[6 + |Field(d, "phone")| + 1..] == Field(d, "message")
  {
    var phone, message := Field(d, "phone"), Field(d, "message");
    SchemeFields("smsto:", phone, ':', message);
  }

  lemma GeoPayload(d: QrData, p: Platform)
    requires ',' !in Field(d, "latitude")
    ensures var r := Payload(Geo, d, p);
      && r[..4] == "geo:" && BeforeFirst(r[4..], ',') == OrElse(Field(d, "latitude"), "0")
      && r[4 + |OrElse(Field(d, "latitude"), "0")| + 1..] == OrElse(Field(d, "longitude"), "0")
  {
    SchemeFields("geo:", OrElse(Field(d, "latitude"), "0"), ',', OrElse(Field(d, "longitude"), "0"));
  }

  /** `mailto:` of RFC 6068 with the address, then the encoded subject and
      body as the two header fields. */
  lemma EmailPayload(d: QrData, p: Platform)
    requires p.encodeUri(Field(d, "subject")).Some? && p.encodeUri(Field(d, "body")).Some?
    ensures var r := Payload(Email, d, p);
      r == "mailto:" + Field(d, "email") + "?subject=" + p.encodeUri(Field(d, "subject")).value
           + "&body=" + p.encodeUri(Field(d, "body")).value
      && r[..7] == "mailto:" && r[7..7 + |Field(d, "email")|] == Field(d, "email")
  {
    var email, rest := Field(d, "email"), "?subject=" + p.encodeUri(Field(d, "subject")).value
                                          + "&body=" + p.encodeUri(Field(d, "body")).value;
    var r := "mailto:" + email + rest;
    assert Payload(Email, d, p) == r;
    assert r[..7] == "mailto:" && r[7..7 + |email|] == email;
  }

  /** A throwing conversion gives "Error" instead of a payload. */
  lemma ThrowIsError(d: QrData, p: Platform)
    ensures p.encodeUri(Field(d, "subject")).None? ==> Payload(Email, d, p) == "Error"
    ensures EventText(d, p).None? ==> Payload(Event, d, p) == "Error"
  {
  }

  /** `scheme + a + sep + b` with no separator in `a`: the fields are read
      back after the scheme. */
  lemma SchemeFields(scheme: string, a: string, c: char, b: string)
    requires c !in a
    ensures var r := scheme + a + [c] + b;
      r[..|scheme|] == scheme && BeforeFirst(r[|scheme|..], c) == a && r[|scheme| + |a| + 1..] == b
  {
    var r := scheme + a + [c] + b;
    assert r[|scheme|..] == a + [c] + b;
    BeforeFirstAt(a, c, b);
  }

  /** The text before the first separator of `a + [c] + b` is `a` when `a`
      holds no separator. */
  lemma BeforeFirstAt(a: string, c: char, b: string)
    requires c !in a
    ensures BeforeFirst(a + [c] + b, c) == a
  {
    var s := a + [c] + b;
    assert s[|a|] == c && s[..|a|] == a;
  }
}
