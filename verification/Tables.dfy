/** Database tables as values: a map of rows under ids that are never given out twice. */
module Tables {

  datatype Option<+T> = None | Some(value: T)

  datatype Table<T> = Table(rows: map<nat, T>, next: nat) {

    /** Every id in use has already been given out by the sequence. */
    ghost predicate Fresh() {
      forall id | id in rows :: id < next
    }

    function Insert(row: T): Table<T> {
      Table(rows[next := row], next + 1)
    }

    function Update(id: nat, row: T): Table<T> {
      Table(rows[id := row], next)
    }

    function Delete(id: nat): Table<T> {
      Table(rows - {id}, next)
    }
  }

  lemma {:induction false} TakeOneMore<T>(s: seq<T>, i: nat)
    requires i < |s|
    ensures s[..i + 1] == s[..i] + [s[i]] && s[..i + 1][..i] == s[..i]
  {
  }
}
