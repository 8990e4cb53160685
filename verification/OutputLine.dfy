/** The line `key:size` by which the task runner tells the worker where its output is. */
module OutputLine {
  /** The characters that `strings.TrimSpace` removes. */
  predicate IsSpace(c: char) {
    || c == ' ' || '\t' <= c <= '\r' || c == '\U{0085}' || c == '\U{00A0}' || c == '\U{1680}'
    || '\U{2000}' <= c <= '\U{200A}' || c == '\U{2028}' || c == '\U{2029}' || c == '\U{202F}'
    || c == '\U{205F}' || c == '\U{3000}'
  }

  predicate IsDigit(c: char) {
    '0' <= c <= '9'
  }

  function DigitOf(d: nat): char
    requires d < 10
  {
    '0' + d as char
  }

  function Digits(n: nat): (s: string)
    ensures s != "" && forall i :: 0 <= i < |s| ==> IsDigit(s[i])
  {
    if n < 10 then [DigitOf(n)] else Digits(n / 10) + [DigitOf(n % 10)]
  }

  /** What `print(f"{output_key}:{size}")` writes to standard output. */
  function Printed(key: string, size: nat): string {
    key + ":" + Digits(size) + "\n"
  }

  function TrimLeft(s: string): string {
    if s != "" && IsSpace(s[0]) then TrimLeft(s[1..]) else s
  }

  function TrimRight(s: string): string {
    if s != "" && IsSpace(s[|s| - 1]) then TrimRight(s[..|s| - 1]) else s
  }

  /** The position of the first colon, or the length. */
  function FirstColon(s: string): (k: nat)
    ensures k <= |s| && (k < |s| ==> s[k] == ':') && forall i :: 0 <= i < k ==> s[i] != ':'
  {
    if s == "" || s[0] == ':' then 0 else 1 + FirstColon(s[1..])
  }

  /** The value of the leading digits. */
  function Scan(s: string, acc: nat): nat {
    if s == "" || !IsDigit(s[0]) then acc else Scan(s[1..], acc * 10 + (s[0] - '0') as nat)
  }

  /** What `Sscanf("%d")` leaves in a variable that was 0: it skips blanks, but no newline, and
      takes a sign. */
  function Scanned(s: string): int {
    if s == "" || s[0] == '\n' then 0
    else if IsSpace(s[0]) then Scanned(s[1..])
    else if s[0] == '-' then 0 - Scan(s[1..], 0)
    else if s[0] == '+' then Scan(s[1..], 0)
    else Scan(s, 0)
  }

  /** How the worker reads the output: path and size. */
  function Parse(output: string): (string, int) {
    var raw := TrimRight(TrimLeft(output));
    var k := FirstColon(raw);
    if k < |raw| then (raw[..k], Scanned(raw[k + 1..])) else (raw, 0)
  }

  lemma {:induction false} ScanAppend(s: string, c: char, acc: nat)
    requires forall i :: 0 <= i < |s| ==> IsDigit(s[i])
    requires IsDigit(c)
    ensures Scan(s + [c], acc) == Scan(s, acc) * 10 + (c - '0') as nat
  {
    if s == "" {
      assert (s + [c])[1..] == "";
    } else {
      assert (s + [c])[1..] == s[1..] + [c];
      ScanAppend(s[1..], c, acc * 10 + (s[0] - '0') as nat);
    }
  }

  lemma {:induction false} ScanDigits(n: nat)
    ensures Scan(Digits(n), 0) == n
  {
    if n < 10 {
      assert Digits(n)[1..] == "";
    } else {
      ScanDigits(n / 10);
      ScanAppend(Digits(n / 10), DigitOf(n % 10), 0);
    }
  }

  lemma {:induction false} ScanStops(s: string, t: string, acc: nat)
    requires t != "" && !IsDigit(t[0])
    ensures Scan(s + t, acc) == Scan(s, acc)
  {
    if s == "" {
      assert s + t == t;
    } else {
      assert (s + t)[1..] == s[1..] + t;
      if IsDigit(s[0]) { ScanStops(s[1..], t, acc * 10 + (s[0] - '0') as nat); }
    }
  }

  /** A size is read up to the first character that is no digit. */
  lemma SizeIsRead(n: nat, rest: string)
    requires rest == "" || !IsDigit(rest[0])
    ensures Scan(Digits(n) + rest, 0) == n
  {
    ScanDigits(n);
    if rest == "" { assert Digits(n) + rest == Digits(n); } else { ScanStops(Digits(n), rest, 0); }
  }

  /** A sign before it counts, and a blank does not. */
  lemma SignIsRead(c: char, n: nat, rest: string)
    requires rest == "" || !IsDigit(rest[0])
    ensures var text := Digits(n) + rest;
            && (c == '-' ==> Scanned([c] + text) == 0 - n)
            && (c == '+' || c == ' ' ==> Scanned([c] + text) == n)
            && (c == '\n' ==> Scanned([c] + text) == 0)
  {
    var text := Digits(n) + rest;
    SizeIsRead(n, rest);
    assert text[0] == Digits(n)[0] && IsDigit(text[0]);
    assert ([c] + text)[1..] == text && Scanned(text) == Scan(text, 0);
  }

  // -- what is printed before the line -------------------------------------------------

  /** A path whose first character can be neither trimmed nor read as a number. */
  predicate Plain(key: string) {
    key != "" && !IsSpace(key[0]) && !IsDigit(key[0]) && key[0] != '+' && key[0] != '-'
  }

  function Line(key: string, size: nat): string {
    key + ":" + Digits(size)
  }

  lemma {:induction false} TrimLeftAppend(s: string, t: string)
    requires t != "" && !IsSpace(t[0])
    ensures TrimLeft(s + t) == TrimLeft(s) + t
  {
    if s == "" {
      assert s + t == t;
    } else {
      assert (s + t)[1..] == s[1..] + t;
      TrimLeftAppend(s[1..], t);
    }
  }

  lemma TrimmedOutput(noise: string, key: string, size: nat)
    requires Plain(key)
    ensures TrimRight(TrimLeft(noise + Printed(key, size))) == TrimLeft(noise) + Line(key, size)
  {
    TrimLeftAppend(noise, Printed(key, size));
    var raw := TrimLeft(noise) + Line(key, size);
    assert TrimLeft(noise) + Printed(key, size) == raw + "\n";
    assert (raw + "\n")[..|raw|] == raw;
    assert raw[|raw| - 1] == Digits(size)[|Digits(size)| - 1];
    assert TrimRight(raw) == raw;
  }

  lemma {:induction false} ScannedStops(s: string, key: string, rest: string)
    requires Plain(key)
    ensures Scanned(s + (key + rest)) == Scanned(s)
  {
    var t := key + rest;
    if s == "" {
      assert s + t == t;
    } else {
      assert (s + t)[1..] == s[1..] + t;
      ScannedStops(s[1..], key, rest);
      ScanStops(s, t, 0);
      ScanStops(s[1..], t, 0);
    }
  }

  /** What was printed before says the same already: it starts with the path, a colon and the
      size. */
  predicate Announces(text: string, key: string, size: nat) {
    key + ":" <= text && Scanned(text[|key| + 1..]) == size
  }

  /** Nothing but blanks was printed before. */
  lemma QuietOutput(key: string, size: nat)
    requires Plain(key)
    ensures var k := FirstColon(Line(key, size));
            && k < |Line(key, size)|
            && ((Line(key, size)[..k], Scanned(Line(key, size)[k + 1..])) == (key, size as int) <==> ':' !in key)
  {
    var line := Line(key, size);
    var k := FirstColon(line);
    assert line[|key|] == ':';
    assert forall i :: 0 <= i < |key| ==> line[i] == key[i];
    if ':' !in key {
      assert k == |key|;
      assert line[..k] == key && line[k + 1..] == Digits(size);
      ScanDigits(size);
    } else {
      var i :| 0 <= i < |key| && key[i] == ':';
      assert line[i] == ':';
      assert |line[..k]| < |key|;
    }
  }

  lemma NoisyOutput(text: string, key: string, size: nat)
    requires Plain(key) && text != ""
    ensures var raw := text + Line(key, size);
            var k := FirstColon(raw);
            && k < |raw|
            && ((raw[..k], Scanned(raw[k + 1..])) == (key, size as int) <==> ':' !in key && Announces(text, key, size))
  {
    var raw := text + Line(key, size);
    var k := FirstColon(raw);
    assert raw[|text| + |key|] == ':';
    assert forall i :: 0 <= i < |key| ==> raw[|text| + i] == key[i];
    if raw[..k] == key {
      assert forall i :: 0 <= i < |key| ==> key[i] == raw[i] != ':';
      assert forall j :: |text| <= j < |text| + |key| ==> raw[j] == key[j - |text|] != ':';
      assert raw[..|key| + 1] == text[..|key| + 1] == key + ":";
    }
    if ':' !in key && key + ":" <= text {
      assert forall i :: 0 <= i < |key| ==> raw[i] == (key + ":")[i];
      assert raw[|key|] == (key + ":")[|key|];
      assert k == |key| && raw[..k] == key;
      assert raw[k + 1..] == text[k + 1..] + (key + (":" + Digits(size)));
      ScannedStops(text[k + 1..], key, ":" + Digits(size));
    }
  }

  /** Exactly when the worker recovers path and size: the path has no colon, and what the user's
      job printed to the same standard output before is blank or says the same. */
  lemma ParseInvertsPrint(noise: string, key: string, size: nat)
    requires Plain(key)
    ensures Parse(noise + Printed(key, size)) == (key, size as int) <==>
              ':' !in key && (TrimLeft(noise) == "" || Announces(TrimLeft(noise), key, size))
  {
    TrimmedOutput(noise, key, size);
    if TrimLeft(noise) == "" {
      QuietOutput(key, size);
      assert TrimLeft(noise) + Line(key, size) == Line(key, size);
      assert Line(key, size)[|key|] == ':';
    } else {
      NoisyOutput(TrimLeft(noise), key, size);
    }
  }

  /** The key the task runner prints. */
  function OutputKey(runId: string, partition: nat): string {
    "artifacts/" + runId + "/partition-" + Digits(partition) + ".csv"
  }

  /** Two partitions never write the same object. */
  lemma OutputKeyIsUnique(runId: string, partition: nat, runId': string, partition': nat)
    requires '/' !in runId && '/' !in runId' && OutputKey(runId, partition) == OutputKey(runId', partition')
    ensures runId == runId' && partition == partition'
  {
    var name, name' := "/partition-" + Digits(partition) + ".csv", "/partition-" + Digits(partition') + ".csv";
    assert OutputKey(runId, partition) == "artifacts/" + (runId + name);
    assert OutputKey(runId', partition') == "artifacts/" + (runId' + name');
    SameHead("artifacts/", runId + name, runId' + name');
    SameSegment(runId, runId', name, name');
    SameName(partition, partition');
  }

  lemma SameName(p: nat, p': nat)
    requires "/partition-" + Digits(p) + ".csv" == "/partition-" + Digits(p') + ".csv"
    ensures p == p'
  {
    assert "/partition-" + Digits(p) + ".csv" == "/partition-" + (Digits(p) + ".csv");
    assert "/partition-" + Digits(p') + ".csv" == "/partition-" + (Digits(p') + ".csv");
    SameHead("/partition-", Digits(p) + ".csv", Digits(p') + ".csv");
    assert Digits(p) == (Digits(p) + ".csv")[..|Digits(p)|] && Digits(p') == (Digits(p') + ".csv")[..|Digits(p')|];
    ScanDigits(p);
    ScanDigits(p');
  }

  lemma {:induction false} SameSegment(a: string, b: string, s: string, t: string)
    requires '/' !in a && '/' !in b && s != "" && t != "" && s[0] == t[0] == '/' && a + s == b + t
    ensures a == b && s == t
  {
    assert (a + s)[0] == (if a == "" then '/' else a[0]) && (b + t)[0] == (if b == "" then '/' else b[0]);
    if a != "" {
      assert (a + s)[1..] == a[1..] + s && (b + t)[1..] == b[1..] + t;
      SameSegment(a[1..], b[1..], s, t);
      assert a == [a[0]] + a[1..] && b == [b[0]] + b[1..];
    } else {
      assert a + s == s && b + t == t;
    }
  }

  lemma SameHead(head: string, s: string, t: string)
    requires head + s == head + t
    ensures s == t
  {
    assert s == (head + s)[|head|..] && t == (head + t)[|head|..];
  }

  /** For a run identifier without colons, such as a UUID, the worker registers the object that
      the task runner wrote exactly if the user's job printed nothing but blanks before, or
      printed that very announcement. */
  lemma WorkerFindsOutput(noise: string, runId: string, partition: nat, size: nat)
    requires ':' !in runId
    ensures var key := OutputKey(runId, partition);
            Parse(noise + Printed(key, size)) == (key, size as int) <==>
              TrimLeft(noise) == "" || Announces(TrimLeft(noise), key, size)
  {
    var key := OutputKey(runId, partition);
    assert key[0] == 'a';
    assert ':' !in "artifacts/" && ':' !in "/partition-" && ':' !in ".csv";
    assert ':' !in Digits(partition);
    ParseInvertsPrint(noise, key, size);
  }

  /** A job that prints a word misleads the worker. */
  lemma PrintingJobMisleads(key: string, size: nat)
    requires Plain(key)
    ensures Parse("hello\n" + Printed(key, size)) != (key, size as int)
  {
    ParseInvertsPrint("hello\n", key, size);
    assert !(key + ":" <= "hello\n") by {
      assert (key + ":")[|key|] == ':';
      assert forall i :: 0 <= i < |"hello\n"| ==> "hello\n"[i] != ':';
    }
  }

  /** A job that prints the very line does not. */
  lemma RepeatedLineIsHarmless(key: string, size: nat)
    requires Plain(key) && ':' !in key
    ensures Parse(Printed(key, size) + Printed(key, size)) == (key, size as int)
  {
    var noise := Printed(key, size);
    assert TrimLeft(noise) == noise;
    assert noise[|key| + 1..] == Digits(size) + "\n";
    ScanStops(Digits(size), "\n", 0);
    ScanDigits(size);
    ParseInvertsPrint(noise, key, size);
  }
}
