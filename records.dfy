/**
 * The records the replica stores and the shape of a sync-queue entry
 * (src/types/index.ts). Optional TypeScript fields become `Option`s;
 * `number` fields are carried as `Number` and never computed with, except the
 * queue's `retry_count`, an `int` that a failed sync attempt increments.
 */
module Records {

  datatype Option<+T> = None | Some(value: T)

  /** The value a spread `{ ...current, ...patch }` leaves in one field. */
  function Over<T>(patch: Option<T>, current: T): T
  {
    if patch.Some? then patch.value else current
  }

  /** A JavaScript `number` that is only stored and copied. */
  type Number = real

  datatype SyncStatus = Pending | Synced | Failed

  datatype VisitType = Good | Missed | Problem | Bad

  datatype TaskStatus = TaskPending | InProgress | Completed

  datatype Operation = Insert | Update | Delete

  datatype Client = Client(
    id: string,
    name: string,
    address: string,
    region: string,
    phone: Option<string>,
    email: Option<string>,
    contact_person: Option<string>,
    created_at: string)

  datatype Visit = Visit(
    id: string,
    rep_id: string,
    client_id: string,
    check_in_time: string,
    check_out_time: Option<string>,
    visit_type: Option<VisitType>,
    notes: Option<string>,
    sync_status: SyncStatus,
    created_at: string)

  datatype Product = Product(
    id: string,
    name: string,
    sku: string,
    unit_price: Number,
    category: string,
    in_stock: bool,
    created_at: string)

  datatype Order = Order(
    id: string,
    rep_id: string,
    client_id: string,
    visit_id: Option<string>,
    total_amount: Number,
    discount_percentage: Option<Number>,
    discount_reason_id: Option<string>,
    is_free_stock: bool,
    pdf_url: Option<string>,
    sync_status: SyncStatus,
    created_at: string)

  datatype OrderItem = OrderItem(
    id: string,
    order_id: string,
    product_id: string,
    quantity: Number,
    unit_price: Number,
    line_total: Number,
    sync_status: SyncStatus,
    created_at: string)

  datatype RepTask = RepTask(
    id: string,
    rep_id: string,
    task_type_id: string,
    title: string,
    description: Option<string>,
    status: TaskStatus,
    due_date: Option<string>,
    completed_at: Option<string>,
    notes: Option<string>,
    photo_url: Option<string>,
    sync_status: SyncStatus,
    created_at: string)

  datatype TaskType = TaskType(
    id: string,
    name: string,
    description: Option<string>,
    created_at: string)

  datatype StockDiscountReason = StockDiscountReason(
    id: string,
    reason: string,
    max_discount_percentage: Number,
    created_at: string)

  /** The `data` of a queue entry: the full snapshot of the record to replay. */
  datatype Payload =
    | VisitData(visit: Visit)
    | OrderData(order: Order)
    | OrderItemData(item: OrderItem)
    | TaskData(task: RepTask)

  /** A pending mutation; `created_at` and `last_attempt` are clock readings. */
  datatype SyncQueueEntry = SyncQueueEntry(
    id: string,
    table_name: string,
    record_id: string,
    operation: Operation,
    data: Payload,
    retry_count: int,
    last_attempt: Option<nat>,
    created_at: nat)

  /**
   * `Partial<RepTask>`: `None` is a key the object does not have. For a field
   * that is itself optional, `Some(None)` is a key present with value `undefined`,
   * which a spread copies over the existing value.
   */
  datatype TaskPatch = TaskPatch(
    id: Option<string>,
    rep_id: Option<string>,
    task_type_id: Option<string>,
    title: Option<string>,
    description: Option<Option<string>>,
    status: Option<TaskStatus>,
    due_date: Option<Option<string>>,
    completed_at: Option<Option<string>>,
    notes: Option<Option<string>>,
    photo_url: Option<Option<string>>,
    sync_status: Option<SyncStatus>,
    created_at: Option<string>)

  /** `Partial<SyncQueue>`, read the same way as `TaskPatch`. */
  datatype QueuePatch = QueuePatch(
    id: Option<string>,
    table_name: Option<string>,
    record_id: Option<string>,
    operation: Option<Operation>,
    data: Option<Payload>,
    retry_count: Option<int>,
    last_attempt: Option<Option<nat>>,
    created_at: Option<nat>)

  /** `{ ...existing, ...updates }` for a task. */
  function SpreadTask(existing: RepTask, updates: TaskPatch): RepTask
  {
    RepTask(
      Over(updates.id, existing.id),
      Over(updates.rep_id, existing.rep_id),
      Over(updates.task_type_id, existing.task_type_id),
      Over(updates.title, existing.title),
      Over(updates.description, existing.description),
      Over(updates.status, existing.status),
      Over(updates.due_date, existing.due_date),
      Over(updates.completed_at, existing.completed_at),
      Over(updates.notes, existing.notes),
      Over(updates.photo_url, existing.photo_url),
      Over(updates.sync_status, existing.sync_status),
      Over(updates.created_at, existing.created_at))
  }

  /** `{ ...existing, ...updates }` for a queue entry. */
  function SpreadEntry(existing: SyncQueueEntry, updates: QueuePatch): SyncQueueEntry
  {
    SyncQueueEntry(
      Over(updates.id, existing.id),
      Over(updates.table_name, existing.table_name),
      Over(updates.record_id, existing.record_id),
      Over(updates.operation, existing.operation),
      Over(updates.data, existing.data),
      Over(updates.retry_count, existing.retry_count),
      Over(updates.last_attempt, existing.last_attempt),
      Over(updates.created_at, existing.created_at))
  }

  /** A patch with no keys. */
  const NoQueueUpdates := QueuePatch(None, None, None, None, None, None, None, None)
}
