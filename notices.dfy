/** Rows of the `notices` table, shared by the notice service, the
    view-notices tool and the push service. */
module NoticeRecords {

  import opened Common

  type Embedding = seq<real>

  datatype Role = TeacherRole | CrRole

  /** A notice; `createdAt` is the creation time as a number. */
  datatype Notice = Notice(
    id: string,
    title: string,
    message: string,
    createdByRole: Role,
    createdByTeacherId: Option<string>,
    createdByCrId: Option<string>,
    dept: string,
    sec: Option<string>,
    series: string,
    embedding: Option<Embedding>,
    createdAt: int)

  /** The creation time the queries order by. */
  function CreatedAt(n: Notice): int
  {
    n.createdAt
  }
}
