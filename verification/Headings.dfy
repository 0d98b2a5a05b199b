/**
 The headings of a formatted table: in which order the columns stand, and which keys share a
 label.
 */
module Headings {
  import opened Wrappers
  import opened Text
  import opened MarkdownTable
  import opened ResponseFormatter

  // ---------------------------------------------------------------------------------------------
  // The order of the columns
  // ---------------------------------------------------------------------------------------------

  /** One text stands before another in a list. */
  predicate Before(order: seq<string>, a: string, b: string) {
    exists i, j :: 0 <= i < j < |order| && order[i] == a && order[j] == b
  }

  /** At least two entries of the order are keys. */
  predicate Applies(order: seq<string>, keys: seq<string>) {
    exists i, j :: 0 <= i < j < |order| && order[i] in keys && order[j] in keys
  }

  lemma BeforeShifts(a: string, order: seq<string>, x: string, y: string)
    requires Before(order, x, y) || (x == a && y in order)
    ensures Before([a] + order, x, y)
  {
    if Before(order, x, y) {
      var i, j :| 0 <= i < j < |order| && order[i] == x && order[j] == y;
      assert ([a] + order)[i + 1] == x && ([a] + order)[j + 1] == y;
    } else {
      var j :| 0 <= j < |order| && order[j] == y;
      assert ([a] + order)[0] == x && ([a] + order)[j + 1] == y;
    }
  }

  lemma {:induction false} OnlyInOrder(order: seq<string>, keys: seq<string>)
    ensures forall c, d | 0 <= c < d < |Only(order, keys)| :: Before(order, Only(order, keys)[c], Only(order, keys)[d])
    ensures forall k :: k in Only(order, keys) <==> k in order && k in keys
  {
    if order != [] {
      var rest, only := order[1..], Only(order, keys);
      OnlyInOrder(rest, keys);
      assert order == [order[0]] + rest;
      var shift := |only| - |Only(rest, keys)|;
      forall c, d | 0 <= c < d < |only| ensures Before(order, only[c], only[d]) {
        assert only[d] == Only(rest, keys)[d - shift];
        assert only[d] in Only(rest, keys);
        if c >= shift { assert only[c] == Only(rest, keys)[c - shift]; }
        BeforeShifts(order[0], rest, only[c], only[d]);
      }
    }
  }

  lemma {:induction false} OnlyTwo(order: seq<string>, keys: seq<string>)
    ensures |Only(order, keys)| >= 1 <==> exists i :: 0 <= i < |order| && order[i] in keys
    ensures |Only(order, keys)| >= 2 <==> Applies(order, keys)
  {
    if order != [] {
      var rest := order[1..];
      OnlyTwo(rest, keys);
      AppliesTail(order, rest, keys);
    }
  }

  lemma AppliesTail(order: seq<string>, rest: seq<string>, keys: seq<string>)
    requires order != [] && rest == order[1..]
    ensures (exists i :: 0 <= i < |order| && order[i] in keys)
            <==> order[0] in keys || exists i :: 0 <= i < |rest| && rest[i] in keys
    ensures Applies(order, keys)
            <==> Applies(rest, keys) || (order[0] in keys && exists i :: 0 <= i < |rest| && rest[i] in keys)
  {
    if i, j :| 0 <= i < j < |rest| && rest[i] in keys && rest[j] in keys {
      assert order[i + 1] in keys && order[j + 1] in keys;
    }
    if i :| 0 <= i < |rest| && rest[i] in keys {
      assert order[i + 1] in keys;
    }
    if i :| 0 < i < |order| && order[i] in keys {
      assert rest[i - 1] in keys;
    }
    if i, j :| 0 <= i < j < |order| && order[i] in keys && order[j] in keys {
      assert rest[j - 1] in keys && (i > 0 ==> rest[i - 1] in keys);
    }
  }

  lemma {:induction false} SortedKeysSorts(s: seq<string>)
    ensures IsSorted(SortedKeys(s))
  {
    if s != [] {
      SortedKeysSorts(s[1..]);
      InsertKeySorts(s[0], SortedKeys(s[1..]));
    }
  }

  /** The order a set of keys is shown in: the first that applies, or none. */
  predicate Chosen(order: seq<string>, keys: seq<string>) {
    if Applies(INSTRUCTION_FIELD_ORDER, keys) then order == INSTRUCTION_FIELD_ORDER
    else if Applies(PAYMENT_FIELD_ORDER, keys) then order == PAYMENT_FIELD_ORDER
    else order == []
  }

  lemma ChosenColumns(keys: seq<string>, order: seq<string>, ordered: seq<string>)
    requires Chosen(order, keys) && ordered == Only(order, keys)
    ensures ColumnOrder(keys) == ordered + SortedKeys(Except(keys, ordered))
  {
    OnlyTwo(INSTRUCTION_FIELD_ORDER, keys);
    OnlyTwo(PAYMENT_FIELD_ORDER, keys);
    if order == [] { ExceptNone(keys); }
  }

  lemma {:induction false} ExceptNone(keys: seq<string>)
    ensures Except(keys, []) == keys
  {
    if keys != [] { ExceptNone(keys[1..]); }
  }

  lemma {:induction false} ExceptDrops(s: seq<string>, drop: seq<string>)
    ensures forall k | k in Except(s, drop) :: k in s && k !in drop
  {
    if s != [] { ExceptDrops(s[1..], drop); }
  }

  /** Two columns: of the order, in the order; then the others, sorted. */
  predicate Ranked(order: seq<string>, a: string, b: string) {
    || (a in order && b in order && Before(order, a, b))
    || (a in order && b !in order)
    || (a !in order && b !in order && LexLeq(a, b))
  }

  lemma RankedColumns(order: seq<string>, ordered: seq<string>, rest: seq<string>, c: nat, d: nat)
    requires c < d < |ordered + rest|
    requires forall x, y | 0 <= x < y < |ordered| :: Before(order, ordered[x], ordered[y])
    requires (forall k | k in ordered :: k in order) && (forall k | k in rest :: k !in order) && IsSorted(rest)
    ensures Ranked(order, (ordered + rest)[c], (ordered + rest)[d])
  {
    var n := |ordered|;
    assert c < n ==> ordered[c] in ordered;
    assert d < n ==> ordered[d] in ordered;
    assert c >= n ==> rest[c - n] in rest;
    assert d >= n ==> rest[d - n] in rest;
  }

  /** The columns a table's keys are shown in stand in the order that applies. */
  lemma ColumnsInOrder(keys: seq<string>, order: seq<string>, columns: seq<string>, c: nat, d: nat)
    requires Chosen(order, keys) && columns == ColumnOrder(keys) && c < d < |columns|
    ensures Ranked(order, columns[c], columns[d])
  {
    var ordered := Only(order, keys);
    var rest := SortedKeys(Except(keys, ordered));
    ChosenColumns(keys, order, ordered);
    OnlyInOrder(order, keys);
    ExceptDrops(keys, ordered);
    SortedKeysMembers(Except(keys, ordered));
    SortedKeysSorts(Except(keys, ordered));
    RankedColumns(order, ordered, rest, c, d);
  }

  // ---------------------------------------------------------------------------------------------
  // Which keys share a label
  // ---------------------------------------------------------------------------------------------

  function LowerCase(c: char): char {
    if c == ' ' then '_' else if 'A' <= c <= 'Z' then (c as int + 32) as char else c
  }

  function Untitled(text: string): string {
    seq(|text|, i requires 0 <= i < |text| => LowerCase(text[i]))
  }

  lemma TitledReads(key: string)
    requires forall i | 0 <= i < |key| :: KeyChar(key[i])
    ensures Untitled(Titled(key)) == key
  {
  }

  /** The words of a key's own label, as a key. */
  function Words(key: string): string {
    if key == "owning_lob" then "lob"
    else if key == "instruction_type" then "type"
    else if key == "effective_date" then "effective"
    else if key == "end_date" then "end"
    else if key == "actor_display" then "actor"
    else if key == "creator_display" then "creator"
    else if key == "approver_display" then "approver"
    else if key == "creditor_name" then "creditor"
    else key
  }

  lemma ActorLabels(key: string)
    requires key == "actor_display" || key == "creator_display"
    ensures Label(key).Some? && Label(Words(key)).None? && Label(key).value == Titled(Words(key))
  {
  }

  lemma ApproverLabels(key: string)
    requires key == "approver_display"
    ensures Label(key).Some? && Label(Words(key)).None? && Label(key).value == Titled(Words(key))
  {
  }

  lemma CreditorLabels(key: string)
    requires key == "creditor_name"
    ensures Label(key).Some? && Label(Words(key)).None? && Label(key).value == Titled(Words(key))
  {
  }

  lemma TermLabels(key: string)
    requires key == "effective_date" || key == "end_date"
    ensures Label(key).Some? && Label(Words(key)).None? && Label(key).value == Titled(Words(key))
  {
  }

  lemma TypeLabels(key: string)
    requires key == "instruction_type"
    ensures Label(key).Some? && Label(Words(key)).None? && Label(key).value == Titled(Words(key))
  {
  }

  /** The keys whose label is the plain one of a shorter key. */
  lemma ShortLabels(key: string)
    requires Words(key) != key && key != "owning_lob"
    ensures Label(key).Some? && Label(Words(key)).None? && Label(key).value == Titled(Words(key))
  {
    if key == "actor_display" || key == "creator_display" {
      ActorLabels(key);
    } else if key == "approver_display" {
      ApproverLabels(key);
    } else if key == "creditor_name" {
      CreditorLabels(key);
    } else if key == "effective_date" || key == "end_date" {
      TermLabels(key);
    } else {
      TypeLabels(key);
    }
  }

  lemma LobLabel(key: string)
    requires key == "owning_lob"
    ensures Label(key) == Some("LOB") && Untitled("LOB") == Words(key) && Label(Words(key)).None?
  {
  }

  lemma WordsAreKey(key: string)
    ensures forall i | 0 <= i < |Words(key)| :: KeyChar(Words(key)[i]) || Words(key) == key
  {
  }

  lemma DateLabels(key: string)
    requires key == "value_date" || key == "approved_at" || key == "rejected_at"
    ensures Label(key).Some? && Untitled(Label(key).value) == key
  {
  }

  lemma LongLabels(key: string)
    requires key == "rejection_reason" || key == "creditor_account"
    ensures Label(key).Some? && Untitled(Label(key).value) == key
  {
  }

  lemma OtherLabels(key: string)
    requires Label(key).Some? && Words(key) == key
    ensures Untitled(Label(key).value) == key
  {
    if key == "instruction_id" {
      assert Untitled("Instruction ID") == key;
    } else if key == "payment_id" {
      assert Untitled("Payment ID") == key;
    } else if key == "event_id" {
      assert Untitled("Event ID") == key;
    } else if key == "wire_scope" {
      assert Untitled("Wire Scope") == key;
    } else if key == "value_date" || key == "approved_at" || key == "rejected_at" {
      DateLabels(key);
    } else {
      LongLabels(key);
    }
  }

  /** The words of any label are those of its key, but for eight keys. */
  lemma LabelWords(key: string)
    requires KeyWord(key)
    ensures Untitled(Humanized(key)) == if Label(key).Some? then Words(key) else key
  {
    TitledReads(key);
    if Label(key).Some? {
      if Words(key) == key {
        OtherLabels(key);
      } else if key == "owning_lob" {
        LobLabel(key);
      } else {
        ShortLabels(key);
        WordsAreKey(key);
        TitledReads(Words(key));
      }
    }
  }

  lemma WordsDiffer(j: string, k: string)
    requires Words(j) == Words(k) && Words(j) != j && Words(k) != k
    ensures j == k
  {
  }

  lemma LabelsDiffer(j: string, k: string)
    requires KeyWord(j) && KeyWord(k) && Label(j).Some? && Label(j) == Label(k)
    ensures j == k
  {
    LabelWords(j);
    LabelWords(k);
    if Words(j) != j && Words(k) != k {
      WordsDiffer(j, k);
    } else if Words(j) != j {
      WordsUnlabelled(j);
    } else if Words(k) != k {
      WordsUnlabelled(k);
    }
  }

  lemma WordsUnlabelled(key: string)
    requires Words(key) != key
    ensures Label(Words(key)).None?
  {
    if key == "owning_lob" { LobLabel(key); } else { ShortLabels(key); }
  }

  /** A longer key that is shown under the label of a shorter one. */
  predicate Twins(long: string, short: string) {
    long != short && long != "owning_lob" && short == Words(long)
  }

  lemma LobApart(key: string)
    requires KeyWord(key) && Label(key).None?
    ensures Titled(key) != "LOB"
  {
    assert "LOB"[1] == 'O';
    if |key| > 1 { assert Titled(key)[1] != 'O'; }
  }

  lemma TwinsTitled(long: string, short: string)
    requires Twins(long, short)
    ensures Label(long).Some? && Label(short).None? && Label(long).value == Titled(short)
  {
    ShortLabels(long);
  }

  lemma OneLabelled(j: string, k: string)
    requires KeyWord(j) && KeyWord(k) && Label(j).Some? && Label(k).None?
    ensures Humanized(j) == Humanized(k) <==> Twins(j, k)
  {
    LabelWords(j);
    LabelWords(k);
    if j == "owning_lob" { LobApart(k); }
    if Twins(j, k) { TwinsTitled(j, k); }
  }

  /** Two different keys share a label exactly if one is the other's longer form. */
  lemma SharedLabels(j: string, k: string)
    requires KeyWord(j) && KeyWord(k) && j != k
    ensures Humanized(j) == Humanized(k) <==> Twins(j, k) || Twins(k, j)
  {
    if Twins(j, k) { TwinsTitled(j, k); }
    if Twins(k, j) { TwinsTitled(k, j); }
    if Label(j).Some? && Label(k).Some? {
      if Label(j) == Label(k) { LabelsDiffer(j, k); }
    } else if Label(j).Some? {
      OneLabelled(j, k);
    } else if Label(k).Some? {
      OneLabelled(k, j);
    } else {
      LabelWords(j);
      LabelWords(k);
    }
  }
}
