/**
 * The two inputs prepare_features sees in the dashboard, and what the
 * per-batch choice of reference category does to them.
 */
module Scenarios {
  import opened Frames
  import opened LexOrder
  import opened Dummies
  import opened Prepare
  import opened SchemaEncoding

  const FORM_NAMES: seq<string> := ["tenure", "MonthlyCharges", "TotalCharges", "Contract",
    "InternetService", "OnlineSecurity", "TechSupport", "PaymentMethod"]

  const FORM_KINDS: seq<Kind> := [Numeric, Numeric, Numeric, Categorical,
    Categorical, Categorical, Categorical, Categorical]

  /** The one-row table built from the single-customer form. */
  function FormRecord(tenure: int, monthly: real, total: real, contract: string, internet: string,
                      security: string, support: string, payment: string): (t: RawTable)
    ensures t.Valid() && Distinct(t.names) && |t.rows| == 1
  {
    RawTable(FORM_NAMES, FORM_KINDS,
      [[Num(tenure as real), Num(monthly), Num(total), Cat(contract), Cat(internet),
        Cat(security), Cat(support), Cat(payment)]])
  }

  /**
   * On the form, the selections make no difference: two customers with the
   * same numbers and any two sets of choices get the same features.
   */
  lemma FormChoicesHaveNoEffect(tenure: int, monthly: real, total: real,
                                contract1: string, internet1: string, security1: string, support1: string, payment1: string,
                                contract2: string, internet2: string, security2: string, support2: string, payment2: string,
                                schema: seq<string>)
    ensures Prepared(FormRecord(tenure, monthly, total, contract1, internet1, security1, support1, payment1), schema) ==
            Prepared(FormRecord(tenure, monthly, total, contract2, internet2, security2, support2, payment2), schema)
  {
    var t := FormRecord(tenure, monthly, total, contract1, internet1, security1, support1, payment1);
    var u := FormRecord(tenure, monthly, total, contract2, internet2, security2, support2, payment2);
    var a := Prepared(t, schema);
    var b := Prepared(u, schema);
    forall k | 0 <= k < |schema|
      ensures a.rows[0][k] == b.rows[0][k]
    {
      if exists j :: 0 <= j < 3 && FORM_NAMES[j] == schema[k] {
        var j :| 0 <= j < 3 && FORM_NAMES[j] == schema[k];
        NumericPassThrough(t, schema, 0, k, j);
        NumericPassThrough(u, schema, 0, k, j);
      } else {
        SingleRowLosesDummies(t, schema, k);
        SingleRowLosesDummies(u, schema, k);
      }
    }
    assert a.rows[0] == b.rows[0];
    assert a.rows == [a.rows[0]] && b.rows == [b.rows[0]];
  }

  /** A fiber-optic customer on the form does not get InternetService_Fiber optic = 1. */
  lemma FormFiberOpticIsZero(tenure: int, monthly: real, total: real, contract: string,
                             security: string, support: string, payment: string, schema: seq<string>, k: nat)
    requires k < |schema| && schema[k] == "InternetService_Fiber optic"
    ensures Prepared(FormRecord(tenure, monthly, total, contract, "Fiber optic", security, support, payment), schema).rows[0][k] == 0.0
  {
    SingleRowLosesDummies(FormRecord(tenure, monthly, total, contract, "Fiber optic", security, support, payment), schema, k);
  }

  /** With the schema-driven encoder the same customer does get InternetService_Fiber optic = 1. */
  lemma SchemaEncodedFormFiberOptic(tenure: int, monthly: real, total: real, contract: string,
                                    security: string, support: string, payment: string, schema: seq<string>, k: nat)
    requires k < |schema| && schema[k] == "InternetService_Fiber optic"
    ensures SchemaEncode(FormRecord(tenure, monthly, total, contract, "Fiber optic", security, support, payment), schema).rows[0][k] == 1.0
  {
    var t := FormRecord(tenure, monthly, total, contract, "Fiber optic", security, support, payment);
    assert DummyName(t.names[4], t.rows[0][4].s) == "InternetService_Fiber optic";
    ObservedLevelIsSet(t, schema, 0, k, 4);
  }

  const CONTRACT_SCHEMA: seq<string> := ["Contract_Two year"]

  /** A batch with one categorical column, one row per value. */
  function OneColumn(name: string, values: seq<string>): (t: RawTable)
    ensures t.Valid() && |t.rows| == |values|
    ensures forall i :: 0 <= i < |values| ==> t.rows[i] == [Cat(values[i])]
  {
    RawTable([name], [Categorical], seq(|values|, i requires 0 <= i < |values| => [Cat(values[i])]))
  }

  function Contracts(values: seq<string>): RawTable
  {
    OneColumn("Contract", values)
  }

  lemma TwoContractsKept()
    ensures Kept(Contracts(["One year", "Two year"]), 0) == ["Two year"]
  {
    var obs := Observed(Contracts(["One year", "Two year"]), 0);
    assert obs == ["One year", "Two year"];
    assert Less("One year", "Two year");
    SortedUnique(Levels(obs), obs);
  }

  lemma TwoContractsEncodedNames()
    ensures GetDummies(Contracts(["One year", "Two year"])).names == CONTRACT_SCHEMA
  {
    var both := Contracts(["One year", "Two year"]);
    TwoContractsKept();
    assert DummyName("Contract", "Two year") == "Contract_Two year";
    assert DummyNameBlock(both, 0) == ["Contract_Two year"];
    assert DummyNames(both) == [["Contract_Two year"]];
    ConcatOfEmpty(NumericNames(both));
    assert DummyNames(both)[..0] == [];
  }

  lemma TwoContractsInOneBatch()
    ensures Prepared(Contracts(["One year", "Two year"]), CONTRACT_SCHEMA).rows == [[0.0], [1.0]]
  {
    var both := Contracts(["One year", "Two year"]);
    TwoContractsKept();
    TwoContractsEncodedNames();
    DummyColumn(both, 0, 0);
    DummyIndicator(both, CONTRACT_SCHEMA, 0, 0, 0, 0);
    DummyIndicator(both, CONTRACT_SCHEMA, 1, 0, 0, 0);
    var r := Prepared(both, CONTRACT_SCHEMA).rows;
    assert r[0] == [0.0] && r[1] == [1.0];
  }

  lemma OneContractAlone(value: string)
    ensures Prepared(Contracts([value]), CONTRACT_SCHEMA).rows == [[0.0]]
  {
    var one := Contracts([value]);
    SingleRowLosesDummies(one, CONTRACT_SCHEMA, 0);
    assert Prepared(one, CONTRACT_SCHEMA).rows[0] == [0.0];
  }

  /**
   * Encoding is not row-split independent: a batch of a one-year and a
   * two-year customer marks the second as two-year, but encoding each
   * customer on its own marks neither.
   */
  lemma SplitChangesEncoding()
    ensures Prepared(Contracts(["One year", "Two year"]), CONTRACT_SCHEMA).rows !=
            Prepared(Contracts(["One year"]), CONTRACT_SCHEMA).rows +
            Prepared(Contracts(["Two year"]), CONTRACT_SCHEMA).rows
  {
    TwoContractsInOneBatch();
    OneContractAlone("One year");
    OneContractAlone("Two year");
    assert [[0.0], [1.0]][1] != ([[0.0]] + [[0.0]])[1];
  }

  const PAYMENT_SCHEMA: seq<string> := [DummyName("PaymentMethod", "Credit card"),
    DummyName("PaymentMethod", "Electronic check"), DummyName("PaymentMethod", "Mailed check")]

  function Payments(values: seq<string>): RawTable
  {
    OneColumn("PaymentMethod", values)
  }

  lemma CryptoBatchKept()
    ensures Kept(Payments(["Electronic check", "Cryptocurrency"]), 0) == ["Electronic check"]
  {
    var obs := Observed(Payments(["Electronic check", "Cryptocurrency"]), 0);
    assert obs == ["Electronic check", "Cryptocurrency"];
    assert Less("Cryptocurrency", "Electronic check");
    SortedUnique(Levels(obs), ["Cryptocurrency", "Electronic check"]);
  }

  lemma CryptoBatchEncodedNames()
    ensures GetDummies(Payments(["Electronic check", "Cryptocurrency"])).names == [PAYMENT_SCHEMA[1]]
  {
    var t := Payments(["Electronic check", "Cryptocurrency"]);
    CryptoBatchKept();
    assert DummyNameBlock(t, 0) == [PAYMENT_SCHEMA[1]];
    assert DummyNames(t) == [[PAYMENT_SCHEMA[1]]];
    ConcatOfEmpty(NumericNames(t));
    assert DummyNames(t)[..0] == [];
  }

  lemma CryptoBatchRow(i: nat)
    requires i < 2
    ensures Prepared(Payments(["Electronic check", "Cryptocurrency"]), PAYMENT_SCHEMA).rows[i] ==
            if i == 0 then [0.0, 1.0, 0.0] else [0.0, 0.0, 0.0]
  {
    var t := Payments(["Electronic check", "Cryptocurrency"]);
    CryptoBatchKept();
    CryptoBatchEncodedNames();
    var e := GetDummies(t);
    if PAYMENT_SCHEMA[0] in e.names {
      DummyNameInjective("PaymentMethod", "Credit card", "Electronic check");
    }
    if PAYMENT_SCHEMA[2] in e.names {
      DummyNameInjective("PaymentMethod", "Mailed check", "Electronic check");
    }
    DummyColumn(t, 0, 0);
    DummyIndicator(t, PAYMENT_SCHEMA, i, 1, 0, 0);
    var r := Prepared(t, PAYMENT_SCHEMA).rows[i];
    assert r[0] == 0.0 && r[2] == 0.0;
  }

  /**
   * A payment method unseen in training adds no column and raises nothing:
   * the customer paying in "Cryptocurrency" gets 0 in every payment column,
   * and, being the smallest value present, it becomes the batch's reference,
   * so the electronic-check customer keeps its dummy.
   */
  lemma UnseenCategoryAddsNoColumn()
    ensures Prepared(Payments(["Electronic check", "Cryptocurrency"]), PAYMENT_SCHEMA).names == PAYMENT_SCHEMA
    ensures Prepared(Payments(["Electronic check", "Cryptocurrency"]), PAYMENT_SCHEMA).rows ==
            [[0.0, 1.0, 0.0], [0.0, 0.0, 0.0]]
  {
    CryptoBatchRow(0);
    CryptoBatchRow(1);
  }
}
