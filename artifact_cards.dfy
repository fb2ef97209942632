/** The fields of one artifact card in the "Database of Artifacts at Site"
    listing (app.py:401-421): defaults for a missing name and date, the
    description fallback chain, the summary's ellipsis, the numbered title,
    and the HTML escaping of everything shown. Rendering stops with a Python
    exception when a value that must be text is not. */
module ArtifactCards {
  import opened Json
  import opened Optional
  import opened PyStrings

  const UnnamedArtifact := "Unnamed Artifact"
  const DateUnknown := "Date unknown"
  const NoDescription := "No description provided."

  /** One card; every text field is HTML-escaped, as the page shows it. The
      metadata is kept as a value, since the page pretty-prints it with
      `json.dumps`. */
  datatype Card = Card(
    title: string,
    discovered: string,
    location: Option<string>,
    summary: Option<string>,
    description: string,
    metadata: Option<Value>)

  /** What the loop body does with one list entry: skips it with a warning
      (not a dict), stops the page with an exception, or shows a card. */
  datatype CardOutcome = NotADict | Raises | Shown(card: Card)

  /** `str(v)` as the f-string of app.py:414 renders a name. A non-empty dict
      gets a placeholder in place of its Python repr. */
  function PyStr(v: Value): string {
    match v
    case Text(s) => s
    case Null => "None"
    case Other(shown, _) => shown
    case Dict(m) => if |m| == 0 then "{}" else "{...}"
  }

  /** `artifact.get('details') or {}` (app.py:408); None when that yields a
      true value that is not a dict, whose `.get` at app.py:409 raises. */
  function DetailsOf(fields: map<string, Value>): (r: Option<map<string, Value>>)
    ensures var d := Get(fields, "details", Null);
      && (r.None? <==> Truthy(d) && !d.Dict?)
      && (!Truthy(d) ==> r == Some(map[]))
      && (Truthy(d) && d.Dict? ==> r == Some(d.fields))
  {
    var d := Get(fields, "details", Null);
    if !Truthy(d) then Some(map[]) else if d.Dict? then Some(d.fields) else None
  }

  /** The description chain of app.py:409: the details' description, else the
      entry's own, else the fixed text. The result is always a true value and
      always one of the three. */
  function DescriptionOf(details: map<string, Value>, fields: map<string, Value>): (r: Value)
    ensures Truthy(r)
    ensures r == Get(details, "description", Null) || r == Get(fields, "description", Null) || r == Text(NoDescription)
  {
    Or(Or(Get(details, "description", Null), Get(fields, "description", Null)), Text(NoDescription))
  }

  /** The chain in order: a missing or empty (false) value falls through to
      the next one. */
  lemma DescriptionFallback(details: map<string, Value>, fields: map<string, Value>)
    ensures var own := Get(details, "description", Null);
      var top := Get(fields, "description", Null);
      var r := DescriptionOf(details, fields);
      && (Truthy(own) ==> r == own)
      && (!Truthy(own) && Truthy(top) ==> r == top)
      && (!Truthy(own) && !Truthy(top) ==> r == Text(NoDescription))
  {
  }

  /** `summary.rstrip().rstrip('.') + '...'` (app.py:419): the text ends in
      the ellipsis, and what precedes it is a prefix of the summary's
      `rstrip()` that does not end in a dot, with only dots cut off behind it
      there; so only dots and whitespace are cut off the summary. */
  function Summarized(summary: string): (r: string)
    ensures |r| >= 3 && r[|r| - 3..] == "..."
    ensures var kept := r[..|r| - 3];
      && kept <= RStrip(summary) <= summary
      && (kept == [] || kept[|kept| - 1] != '.')
      && (forall i :: |kept| <= i < |RStrip(summary)| ==> summary[i] == '.')
      && forall i :: |kept| <= i < |summary| ==> summary[i] == '.' || IsSpace(summary[i])
  {
    var kept := RStripChar(RStrip(summary), '.');
    SummaryKept(summary);
    var r := kept + "...";
    assert r[..|r| - 3] == kept;
    r
  }

  /** Read against the summary itself, what the two `rstrip` calls cut off
      is dots up to the end of `rstrip()`, then whitespace. */
  lemma SummaryKept(summary: string)
    ensures var kept := RStripChar(RStrip(summary), '.');
      && (forall i :: |kept| <= i < |RStrip(summary)| ==> summary[i] == '.')
      && forall i :: |kept| <= i < |summary| ==> summary[i] == '.' || IsSpace(summary[i])
  {
    var trimmed := RStrip(summary);
    var kept := RStripChar(trimmed, '.');
    forall i | |kept| <= i < |summary| ensures summary[i] == '.' || IsSpace(summary[i]) {
      if i < |trimmed| {
        assert trimmed[i] == summary[i];
      } else {
        assert summary[|trimmed|..][i - |trimmed|] == summary[i];
      }
    }
    forall i | |kept| <= i < |trimmed| ensures summary[i] == '.' {
      assert trimmed[i] == summary[i];
    }
  }

  /** A summary that already ends in a character other than a dot or
      whitespace keeps all of its text. */
  lemma SummarizedKeepsText(summary: string)
    requires summary != [] && summary[|summary| - 1] != '.' && !IsSpace(summary[|summary| - 1])
    ensures Summarized(summary) == summary + "..."
  {
    RStripKeeps(summary);
  }

  /** Whether a dict entry's card renders without an exception: the details
      value has a `.get`, and every value handed to `html.escape`, `rstrip`
      or `rstrip('.')` is text. */
  predicate Renderable(fields: map<string, Value>) {
    match DetailsOf(fields)
    case None => false
    case Some(details) =>
      && Get(fields, "discovered_date", Text(DateUnknown)).Text?
      && DescriptionOf(details, fields).Text?
      && (Truthy(Get(details, "location", Null)) ==> Get(details, "location", Null).Text?)
      && (Truthy(Get(details, "summary", Null)) ==> Get(details, "summary", Null).Text?)
  }

  /** The card for the entry at 1-based position `idx` (app.py:401-421). */
  function CardFor(idx: nat, e: Value): (r: CardOutcome)
    ensures r.NotADict? <==> !e.Dict?
    ensures r.Raises? <==> e.Dict? && !Renderable(e.fields)
  {
    if !e.Dict? then NotADict
    else if !Renderable(e.fields) then Raises
    else
      var fields := e.fields;
      var details := DetailsOf(fields).value;
      var name := Get(fields, "name", Text(UnnamedArtifact));
      var discovered := Get(fields, "discovered_date", Text(DateUnknown));
      var description := DescriptionOf(details, fields);
      var summary := Get(details, "summary", Null);
      var location := Get(details, "location", Null);
      var metadata := Get(fields, "metadata", Dict(map[]));
      Shown(Card(
        title := Escape(Decimal(idx) + ". " + PyStr(name)),
        discovered := Escape(discovered.s),
        location := if Truthy(location) then Some(Escape(location.s)) else None,
        summary := if Truthy(summary) then Some(Escape(Summarized(summary.s))) else None,
        description := BreakLines(Escape(description.s)),
        metadata := if Truthy(metadata) then Some(metadata) else None))
  }

  /** The text fields of a shown card are escaped: the title, date, location
      and summary carry no markup character, and the description carries no
      raw newline (its line breaks are `<br>` tags). */
  lemma ShownCardEscaped(idx: nat, e: Value)
    requires CardFor(idx, e).Shown?
    ensures var card := CardFor(idx, e).card;
      && NoMarkup(card.title) && NoMarkup(card.discovered)
      && '\n' !in card.description
      && (card.summary.Some? ==> NoMarkup(card.summary.value))
      && (card.location.Some? ==> NoMarkup(card.location.value))
  {
  }

  /** Read back through `html.unescape`, a shown card's title and date say
      what the entry holds: the number, a dot, a space and the name (or
      "Unnamed Artifact"), and the date (or "Date unknown"). */
  lemma CardReadsBack(idx: nat, fields: map<string, Value>)
    requires CardFor(idx, Dict(fields)).Shown?
    ensures var card := CardFor(idx, Dict(fields)).card;
      && Unescape(card.title) == Decimal(idx) + ". " + (if "name" in fields then PyStr(fields["name"]) else UnnamedArtifact)
      && Unescape(card.discovered) == (if "discovered_date" in fields then fields["discovered_date"].s else DateUnknown)
  {
    var title := Decimal(idx) + ". " + PyStr(Get(fields, "name", Text(UnnamedArtifact)));
    var date := Get(fields, "discovered_date", Text(DateUnknown)).s;
    var card := CardFor(idx, Dict(fields)).card;
    assert card.title == Escape(title) && card.discovered == Escape(date);
    UnescapeEscape(title);
    UnescapeEscape(date);
  }

  /** The location is shown exactly when the details give a true value for
      it, and read back through `html.unescape` it is the location as given. */
  lemma CardLocationReadsBack(idx: nat, fields: map<string, Value>)
    requires CardFor(idx, Dict(fields)).Shown?
    ensures var card := CardFor(idx, Dict(fields)).card;
      var details := DetailsOf(fields).value;
      && (card.location.Some? <==> Truthy(Get(details, "location", Null)))
      && (card.location.Some? ==> Unescape(card.location.value) == details["location"].s)
  {
    var card := CardFor(idx, Dict(fields)).card;
    var location := Get(DetailsOf(fields).value, "location", Null);
    assert card.location == if Truthy(location) then Some(Escape(location.s)) else None;
    if card.location.Some? {
      UnescapeEscape(location.s);
    }
  }

  /** The summary is shown exactly when the details give a true value for it,
      and read back through `html.unescape` it is the summary with its
      ellipsis. */
  lemma CardSummaryReadsBack(idx: nat, fields: map<string, Value>)
    requires CardFor(idx, Dict(fields)).Shown?
    ensures var card := CardFor(idx, Dict(fields)).card;
      var details := DetailsOf(fields).value;
      && (card.summary.Some? <==> Truthy(Get(details, "summary", Null)))
      && (card.summary.Some? ==> Unescape(card.summary.value) == Summarized(details["summary"].s))
  {
    var card := CardFor(idx, Dict(fields)).card;
    var summary := Get(DetailsOf(fields).value, "summary", Null);
    assert card.summary == if Truthy(summary) then Some(Escape(Summarized(summary.s))) else None;
    if card.summary.Some? {
      UnescapeEscape(Summarized(summary.s));
    }
  }

  /** The metadata block is shown exactly when the entry's `metadata` (by
      default `{}`) is a true value, and it shows that value as stored. */
  lemma CardMetadata(idx: nat, fields: map<string, Value>)
    requires CardFor(idx, Dict(fields)).Shown?
    ensures var card := CardFor(idx, Dict(fields)).card;
      && (card.metadata.Some? <==> Truthy(Get(fields, "metadata", Dict(map[]))))
      && (card.metadata.Some? ==> card.metadata.value == fields["metadata"])
  {
    var card := CardFor(idx, Dict(fields)).card;
    var metadata := Get(fields, "metadata", Dict(map[]));
    assert card.metadata == if Truthy(metadata) then Some(metadata) else None;
  }

  /** The shown description is the escaped text of the description chain,
      with every newline turned into a line break; text free of newlines and
      markup characters is shown as it is. */
  lemma CardDescription(idx: nat, fields: map<string, Value>)
    requires CardFor(idx, Dict(fields)).Shown?
    ensures var card := CardFor(idx, Dict(fields)).card;
      var text := DescriptionOf(DetailsOf(fields).value, fields).s;
      && card.description == BreakLines(Escape(text))
      && (NoMarkup(text) && '&' !in text && '\n' !in text ==> card.description == text)
  {
    var card := CardFor(idx, Dict(fields)).card;
    var text := DescriptionOf(DetailsOf(fields).value, fields).s;
    assert card.description == BreakLines(Escape(text));
    if NoMarkup(text) && '&' !in text && '\n' !in text {
      EscapePlain(text);
      BreakLinesKeeps(text);
    }
  }

  /** Text with no character `html.escape` rewrites passes through it
      unchanged. */
  lemma {:induction false} EscapePlain(s: string)
    requires NoMarkup(s) && '&' !in s
    ensures Escape(s) == s
  {
    if s != [] {
      assert s == [s[0]] + s[1..];
      assert s[0] != '<' && s[0] != '>' && s[0] != '"' && s[0] != '\'';
      assert NoMarkup(s[1..]) by {
        forall i | 0 <= i < |s[1..]| ensures s[1..][i] == s[i + 1] { }
      }
      EscapePlain(s[1..]);
    }
  }

  /** Numbering follows the list position, not the count of cards shown,
      and the number can be read off the title: cards at two different
      positions never share a title, whatever their names. */
  lemma TitlesDistinctByPosition(i: nat, j: nat, a: Value, b: Value)
    requires CardFor(i, a).Shown? && CardFor(j, b).Shown? && i != j
    ensures CardFor(i, a).card.title != CardFor(j, b).card.title
  {
    var ta := Decimal(i) + ". " + PyStr(Get(a.fields, "name", Text(UnnamedArtifact)));
    var tb := Decimal(j) + ". " + PyStr(Get(b.fields, "name", Text(UnnamedArtifact)));
    if CardFor(i, a).card.title == CardFor(j, b).card.title {
      UnescapeEscape(ta);
      UnescapeEscape(tb);
      NumberedPrefix(i, j, PyStr(Get(a.fields, "name", Text(UnnamedArtifact))), PyStr(Get(b.fields, "name", Text(UnnamedArtifact))));
    }
  }

  /** The text before the first ". " of a numbered title determines the number. */
  lemma NumberedPrefix(i: nat, j: nat, x: string, y: string)
    requires Decimal(i) + ". " + x == Decimal(j) + ". " + y
    ensures i == j
  {
    var di, dj := Decimal(i), Decimal(j);
    var t := di + ". " + x;
    assert t[|di|] == '.' && (|dj| < |t| ==> t[|dj|] == '.');
    assert forall k :: 0 <= k < |di| ==> t[k] == di[k];
    assert forall k :: 0 <= k < |dj| ==> t[k] == dj[k];
    if |di| < |dj| {
      assert false;
    } else if |dj| < |di| {
      assert false;
    } else {
      assert di == t[..|di|] == dj;
      DecimalValueOfDecimal(i);
      DecimalValueOfDecimal(j);
    }
  }
}
