/** The alert log: entries are prepended, newest first, and never removed. */
module AlertLog {

  /** The `type` of an entry. Only appreciation entries are ever created. */
  datatype LogKind = Appreciation | System

  /** One alert entry; `rate` is in units of 1e-5. */
  datatype AlertEntry = AlertEntry(id: string, timestamp: string, message: string, rate: int, kind: LogKind)

  /** Text every appreciation message starts with, followed by the analyser's subject. */
  const AppreciationPrefix: string := "SGD Appreciated: "

  /** The entry logged when the analyser confirms an appreciation. */
  function AppreciationAlert(id: string, timestamp: string, subject: string, rate: int): (e: AlertEntry)
    ensures e.kind == Appreciation && e.rate == rate && e.id == id && e.timestamp == timestamp
    ensures |e.message| == |AppreciationPrefix| + |subject|
    ensures e.message[..|AppreciationPrefix|] == AppreciationPrefix
    ensures e.message[|AppreciationPrefix|..] == subject
  {
    AlertEntry(id, timestamp, AppreciationPrefix + subject, rate, Appreciation)
  }

  /** `logs.filter(l => l.type === 'appreciation')`. */
  function Appreciations(logs: seq<AlertEntry>): (r: seq<AlertEntry>)
    ensures |r| <= |logs|
  {
    if logs == [] then []
    else if logs[0].kind == Appreciation then [logs[0]] + Appreciations(logs[1..])
    else Appreciations(logs[1..])
  }

  /** The filter holds every appreciation entry, as often as it occurs in the
      log, and nothing else. */
  lemma {:induction false} AppreciationsExact(logs: seq<AlertEntry>)
    ensures forall x :: multiset(Appreciations(logs))[x] == if x.kind == Appreciation then multiset(logs)[x] else 0
    decreases |logs|
  {
    if logs != [] {
      AppreciationsExact(logs[1..]);
      assert logs == [logs[0]] + logs[1..];
      assert multiset(logs) == multiset([logs[0]]) + multiset(logs[1..]);
    }
  }

  /** The filter keeps order: filtering two logs joined is joining their filters. */
  lemma {:induction false} AppreciationsConcat(a: seq<AlertEntry>, b: seq<AlertEntry>)
    ensures Appreciations(a + b) == Appreciations(a) + Appreciations(b)
    decreases |a|
  {
    if a == [] {
      assert a + b == b;
    } else {
      var head: seq<AlertEntry> := if a[0].kind == Appreciation then [a[0]] else [];
      assert (a + b)[0] == a[0];
      assert (a + b)[1..] == a[1..] + b;
      calc {
        Appreciations(a + b);
        head + Appreciations(a[1..] + b);
        { AppreciationsConcat(a[1..], b); }
        head + (Appreciations(a[1..]) + Appreciations(b));
        (head + Appreciations(a[1..])) + Appreciations(b);
        Appreciations(a) + Appreciations(b);
      }
    }
  }

  /** The positions of the appreciation entries in the log. */
  function AppreciationIndices(logs: seq<AlertEntry>): set<int> {
    set i | 0 <= i < |logs| && logs[i].kind == Appreciation
  }

  /** Appending one entry adds its position exactly when it is an appreciation entry. */
  lemma AppreciationIndicesSnoc(init: seq<AlertEntry>, last: AlertEntry)
    ensures |AppreciationIndices(init + [last])| == |AppreciationIndices(init)| + (if last.kind == Appreciation then 1 else 0)
  {
    var logs := init + [last];
    var extra: set<int> := if last.kind == Appreciation then {|init|} else {};
    forall i ensures i in AppreciationIndices(logs) <==> i in AppreciationIndices(init) + extra {
      if 0 <= i < |init| { assert logs[i] == init[i]; }
    }
    assert AppreciationIndices(logs) == AppreciationIndices(init) + extra;
    assert |init| !in AppreciationIndices(init);
    assert AppreciationIndices(init) !! extra;
  }

  lemma {:induction false} AppreciationsCountIndices(logs: seq<AlertEntry>)
    ensures |Appreciations(logs)| == |AppreciationIndices(logs)|
    decreases |logs|
  {
    if logs != [] {
      var init, last := logs[..|logs| - 1], logs[|logs| - 1];
      assert logs == init + [last];
      AppreciationsConcat(init, [last]);
      AppreciationsCountIndices(init);
      AppreciationIndicesSnoc(init, last);
      assert [last][1..] == [];
    }
  }

  /** The number shown on the "Alert History" card: how many entries of the
      log are appreciation entries. */
  function AlertCount(logs: seq<AlertEntry>): (n: nat)
    ensures n == |AppreciationIndices(logs)|
    ensures n <= |logs|
  {
    AppreciationsCountIndices(logs);
    |Appreciations(logs)|
  }

  /** Every entry is counted exactly when every entry is an appreciation entry,
      which is how the log stays, since only appreciation entries are created. */
  lemma {:induction false} AllCountedIffAllAppreciation(logs: seq<AlertEntry>)
    ensures |Appreciations(logs)| == |logs| <==> forall i :: 0 <= i < |logs| ==> logs[i].kind == Appreciation
    decreases |logs|
  {
    if logs != [] {
      var rest := logs[1..];
      AllCountedIffAllAppreciation(rest);
      assert forall i :: 1 <= i < |logs| ==> logs[i] == rest[i - 1];
    }
  }

  /** `setLogs(prev => [entry, ...prev])`: the new entry goes in front and the
      older entries follow unchanged; the count rises by one exactly when the
      entry is an appreciation entry. */
  function Prepend(entry: AlertEntry, logs: seq<AlertEntry>): (r: seq<AlertEntry>)
    ensures |r| == |logs| + 1 && r[0] == entry && r[1..] == logs
    ensures AlertCount(r) == AlertCount(logs) + (if entry.kind == Appreciation then 1 else 0)
  {
    assert ([entry] + logs)[1..] == logs;
    [entry] + logs
  }
}
