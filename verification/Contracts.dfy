/** The records that cross between an adapter, the scan and the staging store. */
module Contracts {
  import opened Wrappers

  datatype ContainerType = Table | View | Collection

  datatype ProfileMode = DistinctCount | TopValues | NullRatio | MinMax

  datatype Sensitivity = NotSensitive | Pii | Secret

  datatype ContainerInfo = ContainerInfo(
    database: string,
    schemaName: Option<string>,
    containerName: string,
    containerType: ContainerType,
    estimatedCount: Option<int>,
    nativeDescription: Option<string>,
    lastModifiedAt: Option<string>)

  datatype ColumnInfo = ColumnInfo(
    name: string,
    ordinal: int,
    nativeType: string,
    nullable: bool,
    isPk: bool,
    isFk: bool,
    nativeDescription: Option<string>,
    referencesContainer: Option<string>,
    referencesColumn: Option<string>)

  datatype TopValue = TopValue(value: string, count: nat)

  datatype ProfileResult = ProfileResult(
    distinctCount: Option<nat>,
    nullRatio: Option<real>,
    topValues: Option<seq<TopValue>>,
    minValue: Option<string>,
    maxValue: Option<string>,
    approximate: bool)
}
