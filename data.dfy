/** The column check of `src/data.py` (`validate_dataframe`): a table is usable when it has
    the four required columns (timestamp, category, severity_score, description); otherwise the message names the missing ones, sorted
    and joined with ", ". A table is seen here through its column names alone. */
module Data {
  import opened Text
  import opened StringOrder

  /** The required names, in the order `validate_dataframe`'s set literal lists them. */
  const RequiredColumnList: seq<string> := ["timestamp", "category", "severity_score", "description"]

  const RequiredColumns: set<string> := {"timestamp", "category", "severity_score", "description"}

  const MissingPrefix := "Missing required columns: "
  const AllPresentMessage := "All required columns present."

  /** The names of `names` that are not in `present`, in the order of `names`. */
  function Absent(names: seq<string>, present: set<string>): (missing: seq<string>)
    ensures forall c :: c in missing <==> c in names && c !in present
    ensures Distinct(names) ==> Distinct(missing)
  {
    if names == [] then []
    else
      var rest := Absent(names[1..], present);
      assert forall c :: c in names <==> c == names[0] || c in names[1..];
      if names[0] in present then rest
      else
        assert Distinct(names) ==> names[0] !in rest by {
          if names[0] in rest {
            var j :| 0 <= j < |names[1..]| && names[1..][j] == names[0];
            assert names[j + 1] == names[0];
          }
        }
        [names[0]] + rest
  }

  /** `required - set(df.columns)`, taken in the order the set literal lists the names. */
  function MissingColumns(present: set<string>): (missing: seq<string>)
    ensures forall c :: c in missing <==> c in RequiredColumns && c !in present
    ensures Distinct(missing)
  {
    Absent(RequiredColumnList, present)
  }

  /** No required name holds a comma, so the joined message can be split back. */
  lemma RequiredNamesHaveNoComma()
    ensures forall c :: c in RequiredColumns ==> NoComma(c)
  {
  }

  /** `validate_dataframe`: valid exactly when every required column is present; otherwise
      the message is the fixed prefix followed by the missing names, each once, in
      ascending order, separated by ", ". */
  function ValidateDataframe(columns: seq<string>): (result: (bool, string))
    ensures result.0 <==> forall c :: c in RequiredColumns ==> c in columns
    ensures result.0 ==> result.1 == AllPresentMessage
    ensures !result.0 ==>
              |MissingPrefix| <= |result.1|
              && result.1[..|MissingPrefix|] == MissingPrefix
              && StrictlySorted(Split(result.1[|MissingPrefix|..]))
              && forall c :: c in Split(result.1[|MissingPrefix|..]) <==> c in RequiredColumns && c !in columns
  {
    var present := set c | c in columns;
    var missing := MissingColumns(present);
    if missing != [] then
      var names := Sort(missing);
      assert forall c :: c in names <==> c in missing by {
        forall c ensures c in names <==> c in missing {
          assert c in names <==> c in multiset(names);
          assert c in missing <==> c in multiset(missing);
        }
      }
      assert names != [] by {
        assert missing[0] in multiset(missing);
      }
      assert missing[0] in RequiredColumns && missing[0] !in columns;
      RequiredNamesHaveNoComma();
      SplitJoin(names);
      var message := MissingPrefix + Join(names);
      assert message[|MissingPrefix|..] == Join(names);
      (false, message)
    else
      assert forall c :: c in RequiredColumns ==> c in columns by {
        forall c | c in RequiredColumns ensures c in columns {
          assert c in present;
        }
      }
      (true, AllPresentMessage)
  }

  /** The outcome depends only on which names are columns: not on their order, on
      duplicates, or on extra columns beside the required ones. */
  lemma ValidateSeesOnlyNameSet(columns1: seq<string>, columns2: seq<string>)
    requires forall c :: c in RequiredColumns ==> (c in columns1 <==> c in columns2)
    ensures ValidateDataframe(columns1) == ValidateDataframe(columns2)
  {
    var present1 := set c | c in columns1;
    var present2 := set c | c in columns2;
    assert Absent(RequiredColumnList, present1) == Absent(RequiredColumnList, present2) by {
      AbsentSeesOnlyNames(RequiredColumnList, present1, present2);
    }
  }

  lemma {:induction false} AbsentSeesOnlyNames(names: seq<string>, p1: set<string>, p2: set<string>)
    requires forall c :: c in names ==> (c in p1 <==> c in p2)
    ensures Absent(names, p1) == Absent(names, p2)
  {
    if names != [] {
      AbsentSeesOnlyNames(names[1..], p1, p2);
    }
  }

  /** Sorting removes any dependence on the order in which the set of missing names is
      visited: every duplicate-free enumeration of it sorts to the same list. */
  lemma SortedMissingIsCanonical(order: seq<string>, present: set<string>)
    requires forall c :: c in order <==> c in RequiredColumns && c !in present
    requires Distinct(order)
    ensures Sort(order) == Sort(MissingColumns(present))
  {
    var a, b := Sort(order), Sort(MissingColumns(present));
    forall c ensures c in a <==> c in b {
      assert c in a <==> c in multiset(a);
      assert c in b <==> c in multiset(b);
      assert c in order <==> c in multiset(order);
      assert c in MissingColumns(present) <==> c in multiset(MissingColumns(present));
    }
    SortedUnique(a, b);
  }

  /** With a single missing name the message is the prefix followed by that name. */
  lemma SingleMissing(columns: seq<string>, name: string)
    requires MissingColumns(set c | c in columns) == [name]
    ensures ValidateDataframe(columns) == (false, MissingPrefix + name)
  {
    assert Sort([name]) == [name];
  }

  /** A table that lacks only `severity_score` is rejected with a message naming just it. */
  lemma MissingSeverityExample()
    ensures ValidateDataframe(["timestamp", "category", "description"])
         == (false, MissingPrefix + "severity_score")
  {
    var columns := ["timestamp", "category", "description"];
    var present := set c | c in columns;
    assert "severity_score" !in present;
    assert "timestamp" in present && "category" in present && "description" in present;
    var list := RequiredColumnList;
    assert Absent(list[3..], present) == [] by {
      assert list[3..][1..] == [];
    }
    assert Absent(list[2..], present) == ["severity_score"] by {
      assert list[2..][1..] == list[3..];
    }
    assert Absent(list[1..], present) == ["severity_score"] by {
      assert list[1..][1..] == list[2..];
    }
    assert MissingColumns(present) == ["severity_score"];
    SingleMissing(columns, "severity_score");
  }

  lemma AllPresentExample()
    ensures ValidateDataframe(["description", "severity_score", "extra", "category", "timestamp"])
         == (true, AllPresentMessage)
  {
  }
}
