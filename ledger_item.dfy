/** The ledger item the bank- and wallet-specific parsers build. */
module LedgerItems {
  import opened Wrappers
  import opened Values

  /** One ledger item, field by field: 账户 (account), 日期 (date),
      交易摘要 (summary), 交易对方 (counterparty), 商品说明 (description),
      金额 (amount), 收/支类型 (direction), 支付方式 (payment method),
      交易状态 (status), 备注 (note) and 类型 (transaction type). The
      Shanghai Pudong Development Bank parser sets no 交易摘要 key, hence the
      Option on that one field. */
  datatype LedgerItem = LedgerItem(
    account: Value,
    date: Value,
    summary: Option<Value>,
    counterparty: Value,
    description: Value,
    amount: Value,
    direction: Value,
    payment: Value,
    status: Value,
    note: Value,
    kind: Value)
}
